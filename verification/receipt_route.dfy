/** `app/api/receipt/route.ts`: the receipt listing (GET) and the receipt
    creation endpoint (POST), which either builds a return receipt from an
    existing one or finds or creates the employee's draft. */
module ReceiptRoute {
  import opened Base
  import Js
  import opened Store
  import opened Http
  import opened Sql
  import opened Sorting

  // ---- GET: the receipt listing ---------------------------------------

  /** A row of the `receipt_with_total` view, as far as the listing filters
      and orders by it. */
  datatype ReceiptRow = ReceiptRow(receiptId: int, createdAt: int, lastName: string, total: int)

  function CreatedAtOf(row: ReceiptRow): int {
    row.createdAt
  }

  /** The column tests the listing's WHERE clause can hold. */
  datatype ReceiptTest = IdIs | CreatedFrom | CreatedBefore | LastNameLike

  /** One day in milliseconds: the width of the date search's window. */
  const Day := 24 * 60 * 60 * 1000

  const SearchTypes: set<string> := {"receipt_id", "receipt_create_date", "last_name"}

  /** A query-string parameter that is present and not empty. */
  predicate Given(p: Option<string>) {
    p.Some? && p.value != ""
  }

  /** `new Date(t.getTime() + Day)`: an invalid date stays invalid. */
  function NextDay(t: Option<int>): (r: Option<int>)
    ensures r.Some? <==> t.Some?
    ensures r.Some? ==> r.value - t.value == Day
  {
    match t
    case None => None
    case Some(ms) => Some(ms + Day)
  }

  /** The WHERE clause and parameters of the listing. `parse` is
      `new Date(text)` (`None` for an invalid date). */
  function ReceiptFilter(searchType: Option<string>, searchValue: Option<string>,
                         parse: string -> Option<int>): (q: Query<ReceiptTest>)
    ensures Aligned(q)
    ensures |q.conds| == 0 <==> !Given(searchType) || !Given(searchValue) || searchType.value !in SearchTypes
  {
    if !Given(searchType) || !Given(searchValue) then Empty()
    else
      var v := searchValue.value;
      if searchType.value == "receipt_id" then
        Push(Empty(), IdIs, IntParam(Js.StringToNumber(v)))
      else if searchType.value == "receipt_create_date" then
        Push(Push(Empty(), CreatedFrom, TimeParam(parse(v))), CreatedBefore, TimeParam(NextDay(parse(v))))
      else if searchType.value == "last_name" then
        Push(Empty(), LastNameLike, TextParam(v))
      else Empty()
  }

  predicate Holds(row: ReceiptRow, test: ReceiptTest, p: Param) {
    match test
    case IdIs => p == IntParam(Some(row.receiptId))
    case CreatedFrom => p.TimeParam? && p.t.Some? && row.createdAt >= p.t.value
    case CreatedBefore => p.TimeParam? && p.t.Some? && row.createdAt < p.t.value
    case LastNameLike => p.TextParam? && ILike(row.lastName, "%" + p.s + "%")
  }

  /** The search the listing offers, stated on the row: the receipt with
      that number, the receipts of the one-day window
      [start, start + 24 h), or the cashiers whose last name contains the
      text (any case); with no usable search, every receipt. */
  predicate Wanted(row: ReceiptRow, searchType: Option<string>, searchValue: Option<string>,
                   parse: string -> Option<int>) {
    if !Given(searchType) || !Given(searchValue) then true
    else
      var v := searchValue.value;
      if searchType.value == "receipt_id" then Js.StringToNumber(v) == Some(row.receiptId)
      else if searchType.value == "receipt_create_date" then
        parse(v).Some? && parse(v).value <= row.createdAt < parse(v).value + Day
      else if searchType.value == "last_name" then ILike(row.lastName, "%" + v + "%")
      else true
  }

  /** The search can be run: a receipt number is a number and a date is a
      valid date. */
  predicate Usable(searchType: Option<string>, searchValue: Option<string>, parse: string -> Option<int>) {
    Given(searchType) && Given(searchValue) ==>
      (searchType.value == "receipt_id" ==> Js.StringToNumber(searchValue.value).Some?)
      && (searchType.value == "receipt_create_date" ==> parse(searchValue.value).Some?)
  }

  /** The parameters are all bindable exactly when the search is usable. */
  lemma ReceiptFilterUsable(searchType: Option<string>, searchValue: Option<string>, parse: string -> Option<int>)
    ensures AllWellFormed(ReceiptFilter(searchType, searchValue, parse)) <==> Usable(searchType, searchValue, parse)
  {
    var q := ReceiptFilter(searchType, searchValue, parse);
    if Given(searchType) && Given(searchValue) {
      var v := searchValue.value;
      if searchType.value == "receipt_id" {
        assert q.params == [IntParam(Js.StringToNumber(v))];
        assert AllWellFormed(q) <==> WellFormed(q.params[0]);
        assert Usable(searchType, searchValue, parse) <==> Js.StringToNumber(v).Some?;
      } else if searchType.value == "receipt_create_date" {
        assert q.params == [TimeParam(parse(v)), TimeParam(NextDay(parse(v)))];
        assert AllWellFormed(q) <==> WellFormed(q.params[0]) && WellFormed(q.params[1]);
        assert Usable(searchType, searchValue, parse) <==> parse(v).Some?;
      } else if searchType.value == "last_name" {
        assert q.params == [TextParam(v)];
        assert AllWellFormed(q) <==> WellFormed(q.params[0]);
      }
    }
  }

  /** With bindable parameters, a row passes the built WHERE clause exactly
      when it is wanted: the two date conditions together are the
      half-open one-day window. */
  lemma ReceiptFilterMeaning(row: ReceiptRow, searchType: Option<string>, searchValue: Option<string>,
                             parse: string -> Option<int>)
    requires Usable(searchType, searchValue, parse)
    ensures Satisfies(row, ReceiptFilter(searchType, searchValue, parse), Holds)
            <==> Wanted(row, searchType, searchValue, parse)
  {
    var q := ReceiptFilter(searchType, searchValue, parse);
    if Given(searchType) && Given(searchValue) && searchType.value in SearchTypes {
      assert ParamOf(q, 0) == q.params[0];
      if searchType.value == "receipt_create_date" {
        assert ParamOf(q, 1) == q.params[1];
      }
    }
  }

  /** `GET /api/receipt`. The gate runs before the query string is read;
      the query is statement 0. A parameter the store cannot bind fails the
      query. The rows are the view's wanted rows, newest first. */
  function ReceiptGet(session: Session, searchType: Option<string>, searchValue: Option<string>,
                      parse: string -> Option<int>, view: seq<ReceiptRow>, env: Env): (r: Listing<ReceiptRow>)
    ensures RouteGate(session).Deny? ==> r == Refused(RouteGate(session).status)
    ensures RouteGate(session).Admit? && FailsAt(env, 0) ==> r == Refused(ErrorStatus(env.fault.error))
    ensures RouteGate(session).Admit? && !FailsAt(env, 0) ==>
              (r.Rows? <==> Usable(searchType, searchValue, parse))
    ensures r.Refused? ==> r.status in {Unauthorized, Forbidden, InternalError}
    ensures r.Rows? ==> RouteGate(session) == Admit(r.handle, session.value)
    ensures r.Rows? ==> SortedDesc(r.rows, CreatedAtOf)
    ensures r.Rows? ==> multiset(r.rows)
                        == multiset(Filter(view, (row: ReceiptRow) => Wanted(row, searchType, searchValue, parse)))
  {
    match RouteGate(session)
    case Deny(s) => Refused(s)
    case Admit(h, _) =>
      var q := ReceiptFilter(searchType, searchValue, parse);
      ReceiptFilterUsable(searchType, searchValue, parse);
      if FailsAt(env, 0) then Refused(ErrorStatus(env.fault.error))
      else if !AllWellFormed(q) then Refused(ErrorStatus(InvalidTextRepresentation))
      else
        assert forall i :: 0 <= i < |view| ==>
            Satisfies(view[i], q, Holds) == Wanted(view[i], searchType, searchValue, parse) by {
          forall i | 0 <= i < |view| {
            ReceiptFilterMeaning(view[i], searchType, searchValue, parse);
          }
        }
        FilterCongruent(view, (row: ReceiptRow) => Satisfies(row, q, Holds),
                        (row: ReceiptRow) => Wanted(row, searchType, searchValue, parse));
        Rows(h, SortDesc(Filter(view, (row: ReceiptRow) => Satisfies(row, q, Holds)), CreatedAtOf))
  }

  /** Without a usable search type and value the listing is every receipt
      of the view, newest first. */
  lemma UnfilteredListing(session: Session, searchType: Option<string>, searchValue: Option<string>,
                          parse: string -> Option<int>, view: seq<ReceiptRow>, env: Env)
    requires RouteGate(session).Admit? && !FailsAt(env, 0)
    requires !Given(searchType) || !Given(searchValue) || searchType.value !in SearchTypes
    ensures ReceiptGet(session, searchType, searchValue, parse, view, env).Rows?
    ensures multiset(ReceiptGet(session, searchType, searchValue, parse, view, env).rows) == multiset(view)
  {
    FilterAll(view, (row: ReceiptRow) => Wanted(row, searchType, searchValue, parse));
  }

  // ---- POST: returns and drafts ---------------------------------------

  /** One entry of `selectedProducts`, keyed by the original line's id. */
  datatype Selection = Selection(quantity: int, isChecked: bool)

  /** The body of `POST /api/receipt`; `selectedProducts` is `None` when
      absent or null. */
  datatype ReceiptRequest = ReceiptRequest(employeeId: Js.Value, receiptId: Js.Value, returnAll: Js.Value,
                                           selectedProducts: Option<map<int, Selection>>)

  /** The request asks for a return: `returnAll` is truthy or the selection
      has at least one key. */
  predicate IsReturnRequest(req: ReceiptRequest) {
    Js.Truthy(req.returnAll) || (req.selectedProducts.Some? && |req.selectedProducts.value| > 0)
  }

  function SelectionOf(req: ReceiptRequest): map<int, Selection> {
    if req.selectedProducts.Some? then req.selectedProducts.value else map[]
  }

  /** A selection entry that asks for its line to be returned. */
  predicate Checked(sel: map<int, Selection>, l: ReceiptLine) {
    l.id in sel && sel[l.id].isChecked
  }

  /** The original lines a return copies: all of them under `returnAll`,
      otherwise those whose selection entry is checked. */
  function Chosen(orig: seq<ReceiptLine>, returnAll: bool, sel: map<int, Selection>): seq<ReceiptLine> {
    if returnAll then orig else Filter(orig, (l: ReceiptLine) => Checked(sel, l))
  }

  /** The rows the return inserts: each chosen line's product, price and
      employee, with its own quantity under `returnAll` and the selection's
      quantity otherwise. */
  function ReturnedValues(orig: seq<ReceiptLine>, returnAll: bool, sel: map<int, Selection>): (vs: seq<LineValues>)
    ensures |vs| == |Chosen(orig, returnAll, sel)|
    ensures forall i :: 0 <= i < |vs| ==>
              var l := Chosen(orig, returnAll, sel)[i];
              vs[i].productId == l.productId && vs[i].price == l.price && vs[i].employeeId == l.employeeId
              && (returnAll ==> vs[i].quantity == l.quantity)
              && (!returnAll ==> Checked(sel, l) && vs[i].quantity == sel[l.id].quantity)
  {
    var chosen := Chosen(orig, returnAll, sel);
    seq(|chosen|, i requires 0 <= i < |chosen| =>
      LineValues(chosen[i].productId,
                 if returnAll then chosen[i].quantity else sel[chosen[i].id].quantity,
                 chosen[i].price, chosen[i].employeeId))
  }

  /** Under `returnAll` the returned rows are the original lines' values,
      in order. */
  lemma ReturnAllValues(orig: seq<ReceiptLine>, sel: map<int, Selection>)
    ensures ReturnedValues(orig, true, sel) == ValuesSeq(orig)
  {
  }

  /** A partial return copies exactly the checked lines, each once: the
      product, price and employee of the original line and the quantity of
      its selection entry, whatever that quantity is. */
  lemma PartialReturnValues(orig: seq<ReceiptLine>, sel: map<int, Selection>)
    ensures forall l :: multiset(Chosen(orig, false, sel))[l] == if Checked(sel, l) then multiset(orig)[l] else 0
    ensures forall i :: 0 <= i < |Chosen(orig, false, sel)| ==>
              var l := Chosen(orig, false, sel)[i];
              l in orig && Checked(sel, l)
              && ReturnedValues(orig, false, sel)[i] == LineValues(l.productId, sel[l.id].quantity, l.price, l.employeeId)
  {
    forall l {
      FilterCount(orig, (l: ReceiptLine) => Checked(sel, l), l);
    }
  }

  /** The return branch. Statement 0 inserts the `Повернення` receipt,
      statement 1 reads the original's lines and statement 2, run only when
      some line is chosen, inserts the copies; the three do not form a
      transaction, so a failure after statement 0 leaves the new receipt
      behind. */
  function ReturnBranch(db: Db, req: ReceiptRequest, env: Env): (r: (Reply, Db))
    requires Valid(db)
    ensures Valid(r.1)
    ensures db.receipts <= r.1.receipts && db.receiptLines <= r.1.receiptLines
    ensures r.1.invoices == db.invoices && r.1.invoiceLines == db.invoiceLines
    ensures r.0.status in {Ok, Forbidden, InternalError}
    ensures r.0.status == Ok <==> r.0.id.Some?
    ensures r.0.status == Ok ==> r.0.id == Some(db.nextReceipt) && Js.ToNumber(req.employeeId).Some?
                                 && r.1.receipts == db.receipts + [Receipt(db.nextReceipt, Js.ToNumber(req.employeeId).value, env.now, Return)]
    ensures r.1 != db ==> |r.1.receipts| == |db.receipts| + 1 && r.1.receipts[|db.receipts|].kind == Return
  {
    if FailsAt(env, 0) then (Reply(ErrorStatus(env.fault.error), None), db)
    else match Js.ToNumber(req.employeeId)
    case None => (Reply(ErrorStatus(InvalidTextRepresentation), None), db)
    case Some(emp) =>
      var ins := InsertReceipt(db, emp, env.now, Return);
      var newId := ins.0;
      var db1 := ins.1;
      if FailsAt(env, 1) then (Reply(ErrorStatus(env.fault.error), None), db1)
      else match Js.ToNumber(req.receiptId)
      case None => (Reply(ErrorStatus(InvalidTextRepresentation), None), db1)
      case Some(rid) =>
        var vs := ReturnedValues(LinesOf(db1, rid), Js.Truthy(req.returnAll), SelectionOf(req));
        if |vs| == 0 then (Reply(Ok, Some(newId)), db1)
        else if FailsAt(env, 2) then (Reply(ErrorStatus(env.fault.error), None), db1)
        else match InsertReceiptLines(db1, newId, vs)
          case Done(db2) => (Reply(Ok, Some(newId)), db2)
          case Raised(e) => (Reply(ErrorStatus(e), None), db1)
  }

  /** `ORDER BY receipt_create_date DESC LIMIT 1` over a non-empty set of
      receipts: one created no earlier than any other. */
  function Newest(rs: seq<Receipt>): (r: Receipt)
    requires |rs| > 0
    ensures r in rs
    ensures forall e :: e in rs ==> e.createdAt <= r.createdAt
    decreases |rs|
  {
    if |rs| == 1 then rs[0]
    else
      var rest := Newest(rs[1..]);
      assert rs == [rs[0]] + rs[1..];
      if rs[0].createdAt >= rest.createdAt then rs[0] else rest
  }

  /** The draft branch: statement 0 looks for the employee's newest draft
      and returns it without writing; only when there is none does
      statement 1 insert one. */
  function DraftBranch(db: Db, employeeId: Js.Value, env: Env): (r: (Reply, Db))
    requires Valid(db)
    ensures Valid(r.1)
    ensures r.1.receiptLines == db.receiptLines && r.1.invoices == db.invoices && r.1.invoiceLines == db.invoiceLines
    ensures r.0.status in {Ok, Forbidden, InternalError}
    ensures r.0.status == Ok <==> r.0.id.Some?
    ensures r.0.status != Ok ==> r.1 == db
    ensures r.0.status == Ok ==> Js.ToNumber(employeeId).Some?
                                 && IsNewestDraftOf(r.1, r.0.id.value, Js.ToNumber(employeeId).value)
    ensures Js.ToNumber(employeeId).Some? && |DraftsOf(db, Js.ToNumber(employeeId).value)| > 0 ==> r.1 == db
    ensures r.1 != db ==> DraftsOf(db, Js.ToNumber(employeeId).value) == []
                          && r == (Reply(Ok, Some(db.nextReceipt)),
                                   InsertReceipt(db, Js.ToNumber(employeeId).value, env.now, Draft).1)
  {
    if FailsAt(env, 0) then (Reply(ErrorStatus(env.fault.error), None), db)
    else match Js.ToNumber(employeeId)
    case None => (Reply(ErrorStatus(InvalidTextRepresentation), None), db)
    case Some(emp) =>
      var drafts := DraftsOf(db, emp);
      if |drafts| > 0 then (Reply(Ok, Some(Newest(drafts).id)), db)
      else if FailsAt(env, 1) then (Reply(ErrorStatus(env.fault.error), None), db)
      else
        var ins := InsertReceipt(db, emp, env.now, Draft);
        DraftsAfterInsert(db, emp, env.now, Draft, emp);
        assert DraftsOf(ins.1, emp) == [Receipt(ins.0, emp, env.now, Draft)];
        (Reply(Ok, Some(ins.0)), ins.1)
  }

  /** `POST /api/receipt`. The gate runs before the body is read; a falsy
      `employeeId` is 400 with no store access. A return request takes the
      return branch, any other the draft branch. Whatever happens, existing
      receipts and lines are never changed: the store only grows. */
  function ReceiptPost(db: Db, session: Session, req: ReceiptRequest, env: Env): (r: (Reply, Db))
    requires Valid(db)
    ensures Valid(r.1)
    ensures db.receipts <= r.1.receipts && db.receiptLines <= r.1.receiptLines
    ensures r.1.invoices == db.invoices && r.1.invoiceLines == db.invoiceLines
    ensures RouteGate(session).Deny? ==> r == (Reply(RouteGate(session).status, None), db)
    ensures RouteGate(session).Admit? && !Js.Truthy(req.employeeId) ==> r == (Reply(BadRequest, None), db)
    ensures r.0.status in {Ok, BadRequest, Unauthorized, Forbidden, InternalError}
    ensures r.0.status == Ok <==> r.0.id.Some?
    ensures RouteGate(session).Admit? && Js.Truthy(req.employeeId) ==>
              r == if IsReturnRequest(req) then ReturnBranch(db, req, env) else DraftBranch(db, req.employeeId, env)
    ensures r.0.status == Ok && IsReturnRequest(req) ==> r.1.receipts[|db.receipts|].kind == Return
    ensures r.0.status == Ok && !IsReturnRequest(req) ==>
              IsNewestDraftOf(r.1, r.0.id.value, Js.ToNumber(req.employeeId).value)
  {
    match RouteGate(session)
    case Deny(s) => (Reply(s, None), db)
    case Admit(_, _) =>
      if !Js.Truthy(req.employeeId) then (Reply(BadRequest, None), db)
      else if IsReturnRequest(req) then ReturnBranch(db, req, env)
      else DraftBranch(db, req.employeeId, env)
  }

  /** A receipt numbered at or past the counter owns no line yet. */
  lemma FreshReceiptHasNoLines(db: Db, id: int)
    requires Valid(db) && id >= db.nextReceipt
    ensures forall i :: 0 <= i < |db.receiptLines| ==> db.receiptLines[i].receiptId != id
  {
  }

  /** The return branch with no store failure and numeric ids: one
      `Повернення` receipt, whose lines carry exactly `ReturnedValues` of
      the original's lines, which are left as they were. */
  lemma ReturnBranchLines(db: Db, req: ReceiptRequest, env: Env)
    requires Valid(db)
    requires Js.ToNumber(req.employeeId).Some? && Js.ToNumber(req.receiptId).Some?
    requires env.fault == NoFault
    ensures var r := ReturnBranch(db, req, env);
            && r.0 == Reply(Ok, Some(db.nextReceipt))
            && r.1.receipts == db.receipts + [Receipt(db.nextReceipt, Js.ToNumber(req.employeeId).value, env.now, Return)]
            && ValuesSeq(LinesOf(r.1, db.nextReceipt))
               == ReturnedValues(LinesOf(db, Js.ToNumber(req.receiptId).value), Js.Truthy(req.returnAll), SelectionOf(req))
            && LinesOf(r.1, Js.ToNumber(req.receiptId).value) == LinesOf(db, Js.ToNumber(req.receiptId).value)
  {
    var emp := Js.ToNumber(req.employeeId).value;
    var rid := Js.ToNumber(req.receiptId).value;
    var newId := db.nextReceipt;
    var db1 := InsertReceipt(db, emp, env.now, Return).1;
    var vs := ReturnedValues(LinesOf(db1, rid), Js.Truthy(req.returnAll), SelectionOf(req));
    var r := ReturnBranch(db, req, env);
    assert db1.receiptLines == db.receiptLines;
    FreshReceiptHasNoLines(db, newId);
    if |vs| == 0 {
      assert r == (Reply(Ok, Some(newId)), db1);
      FilterNone(db.receiptLines, (l: ReceiptLine) => l.receiptId == newId);
    } else {
      var ls := NumberLines(newId, db1.nextReceiptLine, vs);
      assert ReceiptExists(db1, newId) by {
        assert db1.receipts[|db.receipts|].id == newId;
      }
      assert r.1 == db1.(receiptLines := db1.receiptLines + ls, nextReceiptLine := db1.nextReceiptLine + |vs|);
      LinesOfAppended(db1, newId, db1.nextReceiptLine, vs);
      NumberLinesValues(newId, db1.nextReceiptLine, vs);
      if rid != newId {
        LinesOfOther(db1, rid, newId, db1.nextReceiptLine, vs);
      } else {
        FilterNone(db.receiptLines, (l: ReceiptLine) => l.receiptId == rid);
      }
    }
  }

  /** A return that goes through creates one `Повернення` receipt and gives
      it exactly the rows `ReturnedValues` computes from the original's
      lines; the original's lines are only read. */
  lemma ReturnCopiesChosenLines(db: Db, session: Session, req: ReceiptRequest, env: Env)
    requires Valid(db)
    requires RouteGate(session).Admit? && Js.Truthy(req.employeeId) && IsReturnRequest(req)
    requires Js.ToNumber(req.employeeId).Some? && Js.ToNumber(req.receiptId).Some?
    requires env.fault == NoFault
    ensures var r := ReceiptPost(db, session, req, env);
            && r.0 == Reply(Ok, Some(db.nextReceipt))
            && r.1.receipts == db.receipts + [Receipt(db.nextReceipt, Js.ToNumber(req.employeeId).value, env.now, Return)]
            && ValuesSeq(LinesOf(r.1, db.nextReceipt))
               == ReturnedValues(LinesOf(db, Js.ToNumber(req.receiptId).value), Js.Truthy(req.returnAll), SelectionOf(req))
            && LinesOf(r.1, Js.ToNumber(req.receiptId).value) == LinesOf(db, Js.ToNumber(req.receiptId).value)
  {
    ReturnBranchLines(db, req, env);
  }

  /** `returnAll` round trip: the new receipt's lines carry the original
      receipt's (product, quantity, price, employee) values as the same
      multiset. The sequences agree too, because the store reads the
      original lines in table order. */
  lemma ReturnAllRoundTrip(db: Db, session: Session, req: ReceiptRequest, env: Env)
    requires Valid(db)
    requires RouteGate(session).Admit? && Js.Truthy(req.employeeId) && Js.Truthy(req.returnAll)
    requires Js.ToNumber(req.employeeId).Some? && Js.ToNumber(req.receiptId).Some?
    requires env.fault == NoFault
    ensures var r := ReceiptPost(db, session, req, env);
            var rid := Js.ToNumber(req.receiptId).value;
            && ValuesSeq(LinesOf(r.1, db.nextReceipt)) == ValuesSeq(LinesOf(db, rid))
            && multiset(ValuesSeq(LinesOf(r.1, db.nextReceipt))) == multiset(ValuesSeq(LinesOf(db, rid)))
  {
    ReturnCopiesChosenLines(db, session, req, env);
    ReturnAllValues(LinesOf(db, Js.ToNumber(req.receiptId).value), SelectionOf(req));
  }

  /** A return request whose selection checks nothing still creates the
      `Повернення` receipt and reports its id, with no line. */
  lemma EmptyReturnShell(db: Db, session: Session, req: ReceiptRequest, env: Env)
    requires Valid(db)
    requires RouteGate(session).Admit? && Js.Truthy(req.employeeId) && IsReturnRequest(req)
    requires !Js.Truthy(req.returnAll)
    requires Js.ToNumber(req.employeeId).Some? && Js.ToNumber(req.receiptId).Some?
    requires forall l :: l in LinesOf(db, Js.ToNumber(req.receiptId).value) ==> !Checked(SelectionOf(req), l)
    requires env.fault == NoFault
    ensures var r := ReceiptPost(db, session, req, env);
            && r.0 == Reply(Ok, Some(db.nextReceipt))
            && r.1.receipts == db.receipts + [Receipt(db.nextReceipt, Js.ToNumber(req.employeeId).value, env.now, Return)]
            && r.1.receiptLines == db.receiptLines
  {
    var orig := LinesOf(db, Js.ToNumber(req.receiptId).value);
    FilterNone(orig, (l: ReceiptLine) => Checked(SelectionOf(req), l));
  }

  /** The return is not atomic: when reading the original's lines fails,
      or its id is not a number, the `Повернення` receipt already inserted
      stays, without lines, and the reply is an error. */
  lemma ReturnLeavesOrphan(db: Db, session: Session, req: ReceiptRequest, env: Env)
    requires Valid(db)
    requires RouteGate(session).Admit? && Js.Truthy(req.employeeId) && IsReturnRequest(req)
    requires Js.ToNumber(req.employeeId).Some?
    requires FailsAt(env, 1) || (env.fault == NoFault && Js.ToNumber(req.receiptId).None?)
    ensures var r := ReceiptPost(db, session, req, env);
            && r.0.status in {Forbidden, InternalError}
            && r.1.receipts == db.receipts + [Receipt(db.nextReceipt, Js.ToNumber(req.employeeId).value, env.now, Return)]
            && r.1.receiptLines == db.receiptLines
  {
  }
}
