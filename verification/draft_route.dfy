/** `app/api/receipt/draft/route.ts`: find the employee's open draft
    receipt, or create one. */
module DraftRoute {
  import opened Base
  import Js
  import opened Store
  import opened Http

  /** `POST /api/receipt/draft`. The gate runs first; a falsy `employeeId`
      is 400 with no store access. Statement 0 looks for one of the
      employee's drafts (`LIMIT 1` with no order: the first in table order
      here) and returns it without writing; only when there is none does
      statement 1 insert a draft stamped with the request's clock. */
  function DraftPost(db: Db, session: Session, employeeId: Js.Value, env: Env): (r: (Reply, Db))
    requires Valid(db)
    ensures Valid(r.1)
    ensures r.1.receiptLines == db.receiptLines && r.1.invoices == db.invoices && r.1.invoiceLines == db.invoiceLines
    ensures RouteGate(session).Deny? ==> r == (Reply(RouteGate(session).status, None), db)
    ensures RouteGate(session).Admit? && !Js.Truthy(employeeId) ==> r == (Reply(BadRequest, None), db)
    ensures r.0.status in {Ok, BadRequest, Unauthorized, Forbidden, InternalError}
    ensures r.0.status == Ok <==> r.0.id.Some?
    ensures r.0.status != Ok ==> r.1 == db
    ensures r.0.status == Ok ==> Js.ToNumber(employeeId).Some?
                                 && IsDraftOf(r.1, r.0.id.value, Js.ToNumber(employeeId).value)
    ensures r.0.status == Ok && |DraftsOf(db, Js.ToNumber(employeeId).value)| > 0 ==> r.1 == db
    ensures r.1 != db ==> DraftsOf(db, Js.ToNumber(employeeId).value) == []
                          && r == (Reply(Ok, Some(db.nextReceipt)),
                                   InsertReceipt(db, Js.ToNumber(employeeId).value, env.now, Draft).1)
  {
    match RouteGate(session)
    case Deny(s) => (Reply(s, None), db)
    case Admit(_, _) =>
      if !Js.Truthy(employeeId) then (Reply(BadRequest, None), db)
      else if FailsAt(env, 0) then (Reply(ErrorStatus(env.fault.error), None), db)
      else match Js.ToNumber(employeeId)
      case None => (Reply(ErrorStatus(InvalidTextRepresentation), None), db)
      case Some(emp) =>
        var drafts := DraftsOf(db, emp);
        if |drafts| > 0 then (Reply(Ok, Some(drafts[0].id)), db)
        else if FailsAt(env, 1) then (Reply(ErrorStatus(env.fault.error), None), db)
        else
          var ins := InsertReceipt(db, emp, env.now, Draft);
          DraftsAfterInsert(db, emp, env.now, Draft, emp);
          assert DraftsOf(ins.1, emp)[0] == Receipt(ins.0, emp, env.now, Draft);
          (Reply(Ok, Some(ins.0)), ins.1)
  }

  /** A call that finds one of the employee's drafts returns the first one
      and writes nothing. */
  lemma DraftPostFinds(db: Db, session: Session, employeeId: Js.Value, env: Env)
    requires Valid(db)
    requires RouteGate(session).Admit? && Js.Truthy(employeeId) && !FailsAt(env, 0)
    requires Js.ToNumber(employeeId).Some? && |DraftsOf(db, Js.ToNumber(employeeId).value)| > 0
    ensures DraftPost(db, session, employeeId, env)
            == (Reply(Ok, Some(DraftsOf(db, Js.ToNumber(employeeId).value)[0].id)), db)
  {
  }

  /** A call for an employee with no draft, with no store failure,
      creates one and returns the next receipt id. */
  lemma DraftPostCreates(db: Db, session: Session, employeeId: Js.Value, env: Env)
    requires Valid(db)
    requires RouteGate(session).Admit? && Js.Truthy(employeeId) && env.fault == NoFault
    requires Js.ToNumber(employeeId).Some? && DraftsOf(db, Js.ToNumber(employeeId).value) == []
    ensures DraftPost(db, session, employeeId, env)
            == (Reply(Ok, Some(db.nextReceipt)), InsertReceipt(db, Js.ToNumber(employeeId).value, env.now, Draft).1)
  {
  }

  /** Idempotence: a second call for the same employee, right after one
      that succeeded, answers the same id and changes nothing, whether the
      first call found the draft or created it. */
  lemma DraftIdempotent(db: Db, session: Session, employeeId: Js.Value, env1: Env, env2: Env)
    requires Valid(db)
    requires DraftPost(db, session, employeeId, env1).0.status == Ok
    requires !FailsAt(env2, 0)
    ensures var first := DraftPost(db, session, employeeId, env1);
            DraftPost(first.1, session, employeeId, env2) == (first.0, first.1)
  {
    var first := DraftPost(db, session, employeeId, env1);
    var emp := Js.ToNumber(employeeId).value;
    assert RouteGate(session).Admit? && Js.Truthy(employeeId);
    if first.1 != db {
      DraftsAfterInsert(db, emp, env1.now, Draft, emp);
      assert DraftsOf(first.1, emp) == [Receipt(db.nextReceipt, emp, env1.now, Draft)];
      assert first.0 == Reply(Ok, Some(db.nextReceipt));
    } else {
      assert !FailsAt(env1, 0);
      assert |DraftsOf(db, emp)| > 0;
      DraftPostFinds(db, session, employeeId, env1);
    }
    DraftPostFinds(first.1, session, employeeId, env2);
  }
}
