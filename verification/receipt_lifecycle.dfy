/** How the three receipt endpoints work together: the draft receipt an
    employee sells from, created by either draft endpoint and closed by the
    finalize endpoint. */
module ReceiptLifecycle {
  import opened Base
  import Js
  import opened Store
  import opened Http
  import ReceiptRoute
  import DraftRoute
  import SalesRoute

  /** Every employee has at most one open draft. */
  ghost predicate SingleDrafts(db: Db) {
    forall e :: |DraftsOf(db, e)| <= 1
  }

  /** The draft endpoint inserts a draft only for an employee who has
      none, so it keeps every employee at one draft at most. */
  lemma DraftPostKeepsSingleDrafts(db: Db, session: Session, employeeId: Js.Value, env: Env)
    requires Valid(db) && SingleDrafts(db)
    ensures SingleDrafts(DraftRoute.DraftPost(db, session, employeeId, env).1)
  {
    var r := DraftRoute.DraftPost(db, session, employeeId, env);
    if r.1 != db {
      var emp := Js.ToNumber(employeeId).value;
      forall x ensures |DraftsOf(r.1, x)| <= 1 {
        DraftsAfterInsert(db, emp, env.now, Draft, x);
      }
    }
  }

  /** Appending a receipt that is not a draft changes nobody's drafts. */
  lemma DraftsAfterNonDraft(db: Db, db': Db, added: Receipt, x: int)
    requires db'.receipts == db.receipts + [added] && added.kind != Draft
    ensures DraftsOf(db', x) == DraftsOf(db, x)
  {
    FilterAppend(db.receipts, [added], (d: Receipt) => d.kind == Draft && d.employeeId == x);
  }

  /** A store that gains at most one receipt, not a draft, keeps the
      invariant. */
  lemma GrowthByNonDraft(db: Db, db': Db)
    requires SingleDrafts(db)
    requires db'.receipts == db.receipts
             || (|db'.receipts| == |db.receipts| + 1 && db.receipts <= db'.receipts
                 && db'.receipts[|db.receipts|].kind != Draft)
    ensures SingleDrafts(db')
  {
    if db'.receipts != db.receipts {
      var added := db'.receipts[|db.receipts|];
      assert db'.receipts == db.receipts + [added];
      forall x ensures |DraftsOf(db', x)| <= 1 {
        DraftsAfterNonDraft(db, db', added, x);
      }
    } else {
      forall x ensures |DraftsOf(db', x)| <= 1 {
        assert DraftsOf(db', x) == DraftsOf(db, x);
      }
    }
  }

  lemma ReturnBranchKeepsSingleDrafts(db: Db, req: ReceiptRoute.ReceiptRequest, env: Env)
    requires Valid(db) && SingleDrafts(db)
    ensures SingleDrafts(ReceiptRoute.ReturnBranch(db, req, env).1)
  {
    GrowthByNonDraft(db, ReceiptRoute.ReturnBranch(db, req, env).1);
  }

  lemma DraftBranchKeepsSingleDrafts(db: Db, employeeId: Js.Value, env: Env)
    requires Valid(db) && SingleDrafts(db)
    ensures SingleDrafts(ReceiptRoute.DraftBranch(db, employeeId, env).1)
  {
    var r := ReceiptRoute.DraftBranch(db, employeeId, env);
    if r.1 != db {
      forall x ensures |DraftsOf(r.1, x)| <= 1 {
        DraftsAfterInsert(db, Js.ToNumber(employeeId).value, env.now, Draft, x);
      }
    }
  }

  /** The receipt endpoint keeps the invariant too: its draft branch
      inserts only for an employee with no draft, and its return branch
      inserts a `Повернення` receipt, which is nobody's draft. */
  lemma ReceiptPostKeepsSingleDrafts(db: Db, session: Session, req: ReceiptRoute.ReceiptRequest, env: Env)
    requires Valid(db) && SingleDrafts(db)
    ensures SingleDrafts(ReceiptRoute.ReceiptPost(db, session, req, env).1)
  {
    if RouteGate(session).Admit? && Js.Truthy(req.employeeId) {
      if ReceiptRoute.IsReturnRequest(req) {
        ReturnBranchKeepsSingleDrafts(db, req, env);
      } else {
        DraftBranchKeepsSingleDrafts(db, req.employeeId, env);
      }
    }
  }

  /** Finalizing turns no receipt into a draft. */
  lemma SalesPutKeepsSingleDrafts(db: Db, session: Session, receiptId: Js.Value, env: Env)
    requires Valid(db) && SingleDrafts(db)
    ensures SingleDrafts(SalesRoute.SalesPut(db, session, receiptId, env).1)
  {
    forall x ensures |DraftsOf(SalesRoute.SalesPut(db, session, receiptId, env).1, x)| <= 1 {
      SalesRoute.FinalizeShrinksDrafts(db, session, receiptId, env, x);
    }
  }

  /** While every employee has at most one draft, the two draft
      get-or-create variants behave identically: the newest draft and the
      first draft are the same one, and both insert the same row when there
      is none. */
  lemma DraftVariantsAgree(db: Db, session: Session, req: ReceiptRoute.ReceiptRequest, env: Env)
    requires Valid(db) && SingleDrafts(db)
    requires !ReceiptRoute.IsReturnRequest(req)
    ensures ReceiptRoute.ReceiptPost(db, session, req, env) == DraftRoute.DraftPost(db, session, req.employeeId, env)
  {
    if RouteGate(session).Admit? && Js.Truthy(req.employeeId) && Js.ToNumber(req.employeeId).Some? {
      var drafts := DraftsOf(db, Js.ToNumber(req.employeeId).value);
      if |drafts| > 0 {
        assert |drafts| == 1;
        assert ReceiptRoute.Newest(drafts) == drafts[0];
      }
    }
  }

  /** Finalizing an employee's only draft leaves the employee with no
      draft; the counter, and so the next id, is untouched. */
  lemma FinalizeClosesDraft(db: Db, seller: Session, id: int, emp: int, env: Env)
    requires Valid(db) && |DraftsOf(db, emp)| <= 1 && IsDraftOf(db, id, emp)
    requires SalesRoute.SalesPut(db, seller, Js.Num(id), env).0.status == Ok
    ensures var s := SalesRoute.SalesPut(db, seller, Js.Num(id), env);
            DraftsOf(s.1, emp) == [] && s.1.nextReceipt == db.nextReceipt && id < db.nextReceipt
  {
    var s := SalesRoute.SalesPut(db, seller, Js.Num(id), env);
    var p := (x: Receipt) => x.kind == Draft && x.employeeId == emp;
    var dr :| dr in DraftsOf(db, emp) && dr.id == id;
    var k :| 0 <= k < |db.receipts| && db.receipts[k] == dr;
    assert s.1.receipts[k] == dr.(kind := Sale);
    FilterShrinksStrictly(s.1.receipts, db.receipts, p, k);
  }

  /** Finalizing the draft an employee was given closes it: the employee's
      next draft request creates a new receipt with a new id instead of
      returning the finalized one. */
  lemma FinalizeStartsNewDraft(db: Db, session: Session, employeeId: Js.Value, env1: Env, seller: Session,
                               env2: Env, env3: Env)
    requires Valid(db) && SingleDrafts(db)
    requires DraftRoute.DraftPost(db, session, employeeId, env1).0.status == Ok
    requires var d := DraftRoute.DraftPost(db, session, employeeId, env1);
             SalesRoute.SalesPut(d.1, seller, Js.Num(d.0.id.value), env2).0.status == Ok
    requires env3.fault == NoFault
    ensures var d := DraftRoute.DraftPost(db, session, employeeId, env1);
            var s := SalesRoute.SalesPut(d.1, seller, Js.Num(d.0.id.value), env2);
            var next := DraftRoute.DraftPost(s.1, session, employeeId, env3);
            next.0.status == Ok && next.0.id != d.0.id && next.0.id == Some(s.1.nextReceipt)
  {
    var d := DraftRoute.DraftPost(db, session, employeeId, env1);
    var id := d.0.id.value;
    var emp := Js.ToNumber(employeeId).value;
    DraftPostKeepsSingleDrafts(db, session, employeeId, env1);
    assert |DraftsOf(d.1, emp)| <= 1;
    FinalizeClosesDraft(d.1, seller, id, emp, env2);
    var s := SalesRoute.SalesPut(d.1, seller, Js.Num(id), env2);
    assert RouteGate(session).Admit? && Js.Truthy(employeeId);
    DraftRoute.DraftPostCreates(s.1, session, employeeId, env3);
  }
}
