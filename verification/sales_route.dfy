/** `app/api/receipt/sales/route.ts`: finalize a receipt as a sale. */
module SalesRoute {
  import opened Base
  import Js
  import opened Store
  import opened Http

  /** `PUT /api/receipt/sales`. The gate runs first; a falsy `receiptId` is
      400 with no store access. Statement 0 is the update, which binds
      `receiptId` as sent. Nothing checks the receipt's current type, its
      lines, or even that it exists: every receipt with that id becomes a
      sale and the reply is 200. */
  function SalesPut(db: Db, session: Session, receiptId: Js.Value, env: Env): (r: (Reply, Db))
    requires Valid(db)
    ensures Valid(r.1)
    ensures r.0.id == None
    ensures RouteGate(session).Deny? ==> r == (Reply(RouteGate(session).status, None), db)
    ensures RouteGate(session).Admit? && !Js.Truthy(receiptId) ==> r == (Reply(BadRequest, None), db)
    ensures r.0.status in {Ok, BadRequest, Unauthorized, Forbidden, InternalError}
    ensures r.0.status != Ok ==> r.1 == db
    ensures RouteGate(session).Admit? && Js.Truthy(receiptId) && !FailsAt(env, 0) ==>
              (r.0.status == Ok <==> StoreInteger(receiptId).Some?)
    ensures r.0.status == Ok ==> StoreInteger(receiptId).Some? && r.1 == db.(receipts := r.1.receipts)
    ensures r.0.status == Ok ==>
              |r.1.receipts| == |db.receipts|
              && forall i :: 0 <= i < |db.receipts| ==>
                   (db.receipts[i].id == StoreInteger(receiptId).value ==> r.1.receipts[i] == db.receipts[i].(kind := Sale))
                   && (db.receipts[i].id != StoreInteger(receiptId).value ==> r.1.receipts[i] == db.receipts[i])
  {
    match RouteGate(session)
    case Deny(s) => (Reply(s, None), db)
    case Admit(_, _) =>
      if !Js.Truthy(receiptId) then (Reply(BadRequest, None), db)
      else if FailsAt(env, 0) then (Reply(ErrorStatus(env.fault.error), None), db)
      else match StoreInteger(receiptId)
      case None => (Reply(ErrorStatus(InvalidTextRepresentation), None), db)
      case Some(rid) => (Reply(Ok, None), db.(receipts := SetReceiptType(db.receipts, rid, Sale)))
  }

  /** Finalizing twice is finalizing once. */
  lemma FinalizeIdempotent(db: Db, session: Session, receiptId: Js.Value, env1: Env, env2: Env)
    requires Valid(db)
    requires SalesPut(db, session, receiptId, env1).0.status == Ok
    requires !FailsAt(env2, 0)
    ensures var once := SalesPut(db, session, receiptId, env1);
            SalesPut(once.1, session, receiptId, env2) == once
  {
    var once := SalesPut(db, session, receiptId, env1);
    var twice := SalesPut(once.1, session, receiptId, env2);
    assert twice.1.receipts == once.1.receipts;
  }

  /** A finalize turns no receipt into a draft: every employee has at most
      as many drafts afterwards. */
  lemma FinalizeShrinksDrafts(db: Db, session: Session, receiptId: Js.Value, env: Env, employee: int)
    requires Valid(db)
    ensures |DraftsOf(SalesPut(db, session, receiptId, env).1, employee)| <= |DraftsOf(db, employee)|
  {
    var r := SalesPut(db, session, receiptId, env);
    if r.1 != db {
      FilterShrinks(r.1.receipts, db.receipts, (x: Receipt) => x.kind == Draft && x.employeeId == employee);
    }
  }
}
