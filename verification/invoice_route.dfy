/** `app/api/invoice/route.ts`: the invoice listing with its one search
    (GET) and creating an invoice (POST). */
module InvoiceRoute {
  import opened Base
  import Js
  import opened Store
  import opened Http
  import opened Sql
  import opened Sorting

  // ---- GET: the invoice listing ---------------------------------------

  /** A row of the listing's join of invoices, providers (optional) and
      employees. `createdDay` is the creation date as `YYYY-MM-DD` text. */
  datatype InvoiceRow = InvoiceRow(invoiceId: int, providerFirst: Option<string>, providerLast: Option<string>,
                                   employeeFirst: string, employeeLast: string, createdDay: string,
                                   invoiceType: InvoiceType)

  function InvoiceIdOf(row: InvoiceRow): int {
    row.invoiceId
  }

  /** The five search types the listing accepts. */
  datatype SearchType = ById | ByProvider | ByEmployee | ByCreated | ByType

  /** The whitelist: `type` defaults to `invoice_id`, and any other name is
      refused. */
  function SearchTypeOf(t: Option<string>): (r: Option<SearchType>)
    ensures t.None? ==> r == Some(ById)
    ensures r.None? <==> t.Some? && t.value !in {"invoice_id", "provider_name", "employee_name", "created_at", "invoice_type"}
  {
    var name := if t.Some? then t.value else "invoice_id";
    if name == "invoice_id" then Some(ById)
    else if name == "provider_name" then Some(ByProvider)
    else if name == "employee_name" then Some(ByEmployee)
    else if name == "created_at" then Some(ByCreated)
    else if name == "invoice_type" then Some(ByType)
    else None
  }

  /** `COALESCE(x, '')`. */
  function Coalesce(s: Option<string>): string {
    if s.Some? then s.value else ""
  }

  /** The text each search type compares against the pattern. */
  function SearchedText(row: InvoiceRow, t: SearchType): string {
    match t
    case ById => Js.ShowInt(row.invoiceId)
    case ByProvider => Coalesce(row.providerFirst) + " " + Coalesce(row.providerLast)
    case ByEmployee => row.employeeFirst + " " + row.employeeLast
    case ByCreated => row.createdDay
    case ByType => InvoiceTypeLabel(row.invoiceType)
  }

  /** The names and the type compare with both sides lower-cased; the id
      and the date compare as they are. */
  predicate CaseInsensitive(t: SearchType) {
    t in {ByProvider, ByEmployee, ByType}
  }

  /** The WHERE condition on one row. */
  predicate Matches(row: InvoiceRow, t: SearchType, pattern: string) {
    if CaseInsensitive(t) then ILike(SearchedText(row, t), pattern) else Like(SearchedText(row, t), pattern)
  }

  /** `GET /api/invoice`. The gate runs first, then the whitelist (400 with
      no query); the query is statement 0. The rows are the matching rows,
      lowest invoice id first. */
  function InvoiceGet(session: Session, searchType: Option<string>, search: Option<string>,
                      view: seq<InvoiceRow>, env: Env): (r: Listing<InvoiceRow>)
    ensures RouteGate(session).Deny? ==> r == Refused(RouteGate(session).status)
    ensures RouteGate(session).Admit? && SearchTypeOf(searchType).None? ==> r == Refused(BadRequest)
    ensures RouteGate(session).Admit? && SearchTypeOf(searchType).Some? && FailsAt(env, 0) ==>
              r == Refused(ErrorStatus(env.fault.error))
    ensures r.Rows? <==> RouteGate(session).Admit? && SearchTypeOf(searchType).Some? && !FailsAt(env, 0)
    ensures r.Refused? ==> r.status in {BadRequest, Unauthorized, Forbidden, InternalError}
    ensures r.Rows? ==> RouteGate(session) == Admit(r.handle, session.value)
    ensures r.Rows? ==> SortedAsc(r.rows, InvoiceIdOf)
    ensures r.Rows? ==>
              multiset(r.rows)
              == multiset(Filter(view, (row: InvoiceRow) =>
                                         Matches(row, SearchTypeOf(searchType).value, SearchPattern(search))))
  {
    match RouteGate(session)
    case Deny(st) => Refused(st)
    case Admit(h, _) =>
      match SearchTypeOf(searchType)
      case None => Refused(BadRequest)
      case Some(t) =>
        if FailsAt(env, 0) then Refused(ErrorStatus(env.fault.error))
        else
          var pattern := SearchPattern(search);
          Rows(h, SortAsc(Filter(view, (row: InvoiceRow) => Matches(row, t, pattern)), InvoiceIdOf))
  }

  /** For a search without `%`, `_` or `\` the condition is a substring
      test on the searched text, case-insensitive for the names and the
      type; on the id it is a substring of the decimal form, so searching
      `1` also finds invoice 10. */
  lemma MatchesMeansContains(row: InvoiceRow, t: SearchType, term: string)
    requires Plain(term)
    ensures Matches(row, t, "%" + term + "%")
            <==> if CaseInsensitive(t) then Contains(ToLower(SearchedText(row, t)), ToLower(term))
                 else Contains(SearchedText(row, t), term)
  {
    if CaseInsensitive(t) {
      ILikeContains(SearchedText(row, t), term);
    } else {
      LikeContains(SearchedText(row, t), term);
    }
  }

  /** A blank or absent search matches every row. */
  lemma BlankSearchMatchesAll(row: InvoiceRow, t: SearchType, search: Option<string>)
    requires search.None? || Trim(search.value) == ""
    ensures Matches(row, t, SearchPattern(search))
  {
    assert SearchPattern(search) == "%" + "" + "%";
    assert Plain("");
    MatchesMeansContains(row, t, "");
    assert StartsWith(ToLower(SearchedText(row, t)), ToLower(""));
    assert StartsWith(SearchedText(row, t), "");
  }

  // ---- POST: creating an invoice ----------------------------------------

  /** The body of `POST /api/invoice`. */
  datatype InvoiceBody = InvoiceBody(providerId: Js.Value, invoiceType: Js.Value)

  /** The insert with a provider column runs unless the provider is `null`
      or the empty string; an absent provider takes it too. */
  predicate WithProvider(b: InvoiceBody) {
    b.providerId != Js.Null && b.providerId != Js.Str("")
  }

  /** How the store binds the provider parameter: `None` when it cannot,
      `Some(None)` for NULL. An absent value is sent as NULL. */
  function ProviderBinding(v: Js.Value): (r: Option<Option<int>>)
    ensures v.Num? ==> r == Some(Some(v.n))
    ensures v == Js.Undefined || v == Js.Null ==> r == Some(None)
  {
    match v
    case Undefined => Some(None)
    case Null => Some(None)
    case Num(n) => Some(Some(n))
    case Str(_) => if StoreInteger(v).Some? then Some(Some(StoreInteger(v).value)) else None
    case _ => None
  }

  /** The provider the new invoice records. */
  function ProviderOf(b: InvoiceBody): Option<Option<int>> {
    if WithProvider(b) then ProviderBinding(b.providerId) else Some(None)
  }

  /** The `::invoice_type_enum` cast: only a stored label casts. */
  function KindOf(v: Js.Value): (r: Option<InvoiceType>)
    ensures r.Some? ==> v == Js.Str(InvoiceTypeLabel(r.value))
  {
    if v.Str? then InvoiceTypeFromLabel(v.s) else None
  }

  /** `POST /api/invoice`. The gate runs first; a falsy `invoice_type` is
      400, and so is a session employee id that is 0 or NaN, both with no
      store access. The insert is statement 0; a type that is not a stored
      label or a provider the store cannot bind fails it. */
  function InvoicePost(db: Db, session: Session, body: InvoiceBody, env: Env): (r: (Reply, Db))
    requires Valid(db)
    ensures Valid(r.1)
    ensures r.0.id == None
    ensures r.1.receipts == db.receipts && r.1.receiptLines == db.receiptLines && r.1.invoiceLines == db.invoiceLines
    ensures RouteGate(session).Deny? ==> r == (Reply(RouteGate(session).status, None), db)
    ensures RouteGate(session).Admit? && !Js.Truthy(body.invoiceType) ==> r == (Reply(BadRequest, None), db)
    ensures RouteGate(session).Admit? && Js.Truthy(body.invoiceType) && Js.NumberFalsy(session.value.id) ==>
              r == (Reply(BadRequest, None), db)
    ensures r.0.status in {Created, BadRequest, Unauthorized, Forbidden, InternalError}
    ensures r.0.status != Created ==> r.1 == db
    ensures r.0.status == Created <==>
              RouteGate(session).Admit? && Js.Truthy(body.invoiceType) && !Js.NumberFalsy(session.value.id)
              && !FailsAt(env, 0) && KindOf(body.invoiceType).Some? && ProviderOf(body).Some?
    ensures r.0.status == Created ==>
              r.1.invoices == db.invoices + [Invoice(db.nextInvoice, Js.ToNumber(session.value.id).value,
                                                     ProviderOf(body).value, KindOf(body.invoiceType).value,
                                                     env.now, None, InProgress)]
  {
    match RouteGate(session)
    case Deny(st) => (Reply(st, None), db)
    case Admit(_, user) =>
      if !Js.Truthy(body.invoiceType) then (Reply(BadRequest, None), db)
      else if Js.NumberFalsy(user.id) then (Reply(BadRequest, None), db)
      else if FailsAt(env, 0) then (Reply(ErrorStatus(env.fault.error), None), db)
      else if KindOf(body.invoiceType).None? || ProviderOf(body).None? then
        (Reply(ErrorStatus(InvalidTextRepresentation), None), db)
      else
        (Reply(Created, None),
         InsertInvoice(db, Js.ToNumber(user.id).value, ProviderOf(body).value, KindOf(body.invoiceType).value, env.now))
  }

  /** Every invoice the route creates is in progress, not completed, and
      created at the request's time; it is appended and nothing else
      changes. */
  lemma CreatedInvoiceIsOpen(db: Db, session: Session, body: InvoiceBody, env: Env)
    requires Valid(db)
    requires InvoicePost(db, session, body, env).0.status == Created
    ensures var db' := InvoicePost(db, session, body, env).1;
            |db'.invoices| == |db.invoices| + 1 && db'.invoices[..|db.invoices|] == db.invoices
            && db'.invoices[|db.invoices|].status == InProgress
            && db'.invoices[|db.invoices|].completedAt.None?
            && db'.invoices[|db.invoices|].createdAt == env.now
            && db'.invoices[|db.invoices|].id == db.nextInvoice
  {
    var db' := InvoicePost(db, session, body, env).1;
    assert db'.invoices[..|db.invoices|] == db.invoices;
  }

  /** A `null` or empty provider creates an invoice without one; a numeric
      provider is recorded as given. */
  lemma ProviderRecorded(db: Db, session: Session, body: InvoiceBody, env: Env)
    requires Valid(db)
    requires InvoicePost(db, session, body, env).0.status == Created
    ensures var added := InvoicePost(db, session, body, env).1.invoices[|db.invoices|];
            (body.providerId in {Js.Null, Js.Str(""), Js.Undefined} ==> added.provider.None?)
            && (body.providerId.Num? ==> added.provider == Some(body.providerId.n))
  {
  }
}
