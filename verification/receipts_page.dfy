/** The return form of `components/shared/receipts.tsx`: the selection
    reducer behind the per-line checkboxes and quantity inputs, the
    "return the whole receipt" switch, which receipts offer a return, and
    the request the form posts to `POST /api/receipt`. */
module ReceiptsPage {
  import opened Base
  import Js
  import opened Store
  import opened Http
  import ReceiptRoute

  type Selection = ReceiptRoute.Selection

  /** The form's state: the switch and `selectedProducts`, keyed by the
      original line's id. An entry whose `isChecked` was never set reads as
      unchecked, as it does on the server. */
  datatype ReturnForm = ReturnForm(returnAll: bool, selected: map<int, Selection>)

  /** The form as the modal opens it. */
  const Initial := ReturnForm(false, map[])

  /** `handleCheckboxChange`: the line the server returns flips for that id
      and for no other; a line checked for the first time returns one unit,
      and an entry keeps the quantity it had. The line's own quantity,
      passed by the caller, is not used. */
  function ToggleChecked(sel: map<int, Selection>, id: int): (r: map<int, Selection>)
    ensures forall l: ReceiptLine :: ReceiptRoute.Checked(r, l)
                                     == if l.id == id then !ReceiptRoute.Checked(sel, l) else ReceiptRoute.Checked(sel, l)
    ensures id in r && r[id].quantity == if id in sel then sel[id].quantity else 1
    ensures r.Keys == sel.Keys + {id}
    ensures forall k :: k in sel && k != id ==> r[k] == sel[k]
  {
    var checked := id in sel && sel[id].isChecked;
    sel[id := ReceiptRoute.Selection(if id in sel then sel[id].quantity else 1, !checked)]
  }

  /** `handleQuantityChange`: never changes which lines the server
      returns; it sets the quantity the server copies for that id, and
      nothing bounds the value. */
  function SetQuantity(sel: map<int, Selection>, id: int, q: int): (r: map<int, Selection>)
    ensures forall l: ReceiptLine :: ReceiptRoute.Checked(r, l) == ReceiptRoute.Checked(sel, l)
    ensures id in r && r[id].quantity == q
    ensures r.Keys == sel.Keys + {id}
    ensures forall k :: k in sel && k != id ==> r[k] == sel[k]
  {
    sel[id := ReceiptRoute.Selection(q, id in sel && sel[id].isChecked)]
  }

  /** A quantity edit keeps the lines a partial return copies, and the copy
      of the edited line carries the new quantity; every other copy is as
      before. */
  lemma QuantityEditReturned(orig: seq<ReceiptLine>, sel: map<int, Selection>, id: int, q: int)
    ensures ReceiptRoute.Chosen(orig, false, SetQuantity(sel, id, q)) == ReceiptRoute.Chosen(orig, false, sel)
    ensures var chosen := ReceiptRoute.Chosen(orig, false, sel);
            forall i :: 0 <= i < |chosen| ==>
              ReceiptRoute.ReturnedValues(orig, false, SetQuantity(sel, id, q))[i].quantity
              == if chosen[i].id == id then q else ReceiptRoute.ReturnedValues(orig, false, sel)[i].quantity
  {
    var sel' := SetQuantity(sel, id, q);
    FilterCongruent(orig, (l: ReceiptLine) => ReceiptRoute.Checked(sel', l),
                          (l: ReceiptLine) => ReceiptRoute.Checked(sel, l));
  }

  /** Toggling a line twice gives it back its `isChecked` and its
      quantity; an entry the first toggle created stays, unchecked, so the
      server sees the same lines checked as before. */
  lemma ToggleTwice(sel: map<int, Selection>, id: int)
    ensures id in sel ==> ToggleChecked(ToggleChecked(sel, id), id) == sel
    ensures forall l :: ReceiptRoute.Checked(ToggleChecked(ToggleChecked(sel, id), id), l) == ReceiptRoute.Checked(sel, l)
  {
    var once := ToggleChecked(sel, id);
    var twice := ToggleChecked(once, id);
    if id in sel {
      assert twice[id] == sel[id];
      assert twice == sel;
    }
  }

  /** The "return the whole receipt" switch flips, and no line stays
      selected. */
  function ToggleReturnAll(f: ReturnForm): (g: ReturnForm)
    ensures g.returnAll == !f.returnAll
    ensures forall l: ReceiptLine :: !ReceiptRoute.Checked(g.selected, l)
  {
    ReturnForm(!f.returnAll, map[])
  }

  /** Switching the whole-receipt return on makes the request a return;
      switching it off leaves a form the server reads as a draft request,
      whatever had been selected before. */
  lemma ToggleReturnAllRequest(receiptId: Js.Value, employeeId: Js.Value, f: ReturnForm)
    ensures ReceiptRoute.IsReturnRequest(ReturnPayload(receiptId, employeeId, ToggleReturnAll(f))) <==> !f.returnAll
  {
    PayloadIsReturnIff(receiptId, employeeId, ToggleReturnAll(f));
  }

  /** A receipt row offers a return unless it is itself a return. */
  predicate ReturnOffered(receiptType: string) {
    receiptType != ReceiptTypeLabel(Return)
  }

  lemma ReturnOfferedByType(t: ReceiptType)
    ensures ReturnOffered(ReceiptTypeLabel(t)) <==> t != Return
  {
  }

  /** The bounds of a line's quantity input, shown only while the switch is
      off, the line is checked and the line holds more than one unit: 1 up
      to the line's quantity. */
  function QuantityInput(f: ReturnForm, lineId: int, lineQuantity: int): (b: Option<(int, int)>)
    ensures b.Some? <==> !f.returnAll && lineId in f.selected && f.selected[lineId].isChecked && lineQuantity > 1
    ensures b.Some? ==> b.value == (1, lineQuantity)
  {
    if !f.returnAll && lineId in f.selected && f.selected[lineId].isChecked && lineQuantity > 1
    then Some((1, lineQuantity)) else None
  }

  /** The input's bounds are not enforced: whatever quantity is typed into
      a line's input, in bounds or not, is the quantity the return copies
      for that line. */
  lemma QuantityBoundsNotEnforced(orig: seq<ReceiptLine>, f: ReturnForm, i: int, q: int)
    requires 0 <= i < |orig| && QuantityInput(f, orig[i].id, orig[i].quantity).Some?
    ensures var sel := SetQuantity(f.selected, orig[i].id, q);
            var chosen := ReceiptRoute.Chosen(orig, false, sel);
            exists k :: 0 <= k < |chosen| && chosen[k] == orig[i]
                        && ReceiptRoute.ReturnedValues(orig, false, sel)[k].quantity == q
  {
    var sel := SetQuantity(f.selected, orig[i].id, q);
    var chosen := ReceiptRoute.Chosen(orig, false, sel);
    ReceiptRoute.PartialReturnValues(orig, sel);
    assert ReceiptRoute.Checked(sel, orig[i]);
    assert multiset(chosen)[orig[i]] > 0;
    assert orig[i] in chosen;
    var k :| 0 <= k < |chosen| && chosen[k] == orig[i];
  }

  /** The body of the return request: the receipt, the switch, the
      session's employee id and the selection, as they stand. */
  function ReturnPayload(receiptId: Js.Value, employeeId: Js.Value, f: ReturnForm): (req: ReceiptRoute.ReceiptRequest)
    ensures req.employeeId == employeeId && req.receiptId == receiptId
    ensures Js.Truthy(req.returnAll) <==> f.returnAll
    ensures ReceiptRoute.SelectionOf(req) == f.selected
  {
    ReceiptRoute.ReceiptRequest(employeeId, receiptId, Js.Bool(f.returnAll), Some(f.selected))
  }

  /** The server reads the payload as a return exactly when the switch is
      on or some line was ever touched; a form nobody touched asks for the
      draft instead. */
  lemma PayloadIsReturnIff(receiptId: Js.Value, employeeId: Js.Value, f: ReturnForm)
    ensures ReceiptRoute.IsReturnRequest(ReturnPayload(receiptId, employeeId, f)) <==> f.returnAll || |f.selected| > 0
    ensures !ReceiptRoute.IsReturnRequest(ReturnPayload(receiptId, employeeId, Initial))
  {
  }

  /** A line checked and unchecked again still makes the request a return,
      and the server then creates a `Повернення` receipt with no lines. */
  lemma UncheckedLineMakesEmptyReturn(db: Db, session: Session, receiptId: int, employeeId: int, id: int, env: Env)
    requires Valid(db)
    requires RouteGate(session).Admit? && employeeId != 0
    requires env.fault == NoFault
    ensures var f := ReturnForm(false, ToggleChecked(ToggleChecked(map[], id), id));
            var r := ReceiptRoute.ReceiptPost(db, session, ReturnPayload(Js.Num(receiptId), Js.Num(employeeId), f), env);
            && r.0 == Reply(Ok, Some(db.nextReceipt))
            && r.1.receipts == db.receipts + [Receipt(db.nextReceipt, employeeId, env.now, Return)]
            && r.1.receiptLines == db.receiptLines
  {
    var f := ReturnForm(false, ToggleChecked(ToggleChecked(map[], id), id));
    var req := ReturnPayload(Js.Num(receiptId), Js.Num(employeeId), f);
    assert id in f.selected;
    ToggleTwice(map[], id);
    ReceiptRoute.EmptyReturnShell(db, session, req, env);
  }

  /** With the switch on, the request returns every line of the receipt,
      whatever was selected before it was switched on. */
  lemma ReturnAllCopiesReceipt(db: Db, session: Session, receiptId: int, employeeId: int, f: ReturnForm, env: Env)
    requires Valid(db)
    requires RouteGate(session).Admit? && employeeId != 0
    requires env.fault == NoFault && !f.returnAll
    ensures var req := ReturnPayload(Js.Num(receiptId), Js.Num(employeeId), ToggleReturnAll(f));
            var r := ReceiptRoute.ReceiptPost(db, session, req, env);
            ValuesSeq(LinesOf(r.1, db.nextReceipt)) == ValuesSeq(LinesOf(db, receiptId))
  {
    var req := ReturnPayload(Js.Num(receiptId), Js.Num(employeeId), ToggleReturnAll(f));
    ReceiptRoute.ReturnAllRoundTrip(db, session, req, env);
  }
}
