/** The relational store as the routes see it: four tables held in insertion
    order, a serial counter per table, the store errors a statement can raise,
    and the single statements the routes issue.

    Whatever the store decides on its own (a row-level privilege rejection,
    the stock trigger's "insufficient quantity" error, a lost connection) is
    injected through `Env.fault`: the statement with that index within one
    request fails with the given error and changes nothing. */
module Store {
  import opened Base
  import Js

  /** Receipt types as stored: 'Чернетка', 'Продаж', 'Повернення'. */
  datatype ReceiptType = Draft | Sale | Return

  function ReceiptTypeLabel(t: ReceiptType): string {
    match t
    case Draft => "Чернетка"
    case Sale => "Продаж"
    case Return => "Повернення"
  }

  /** Invoice types as stored: 'Отримання', 'Списання', 'Повернення'. */
  datatype InvoiceType = Receiving | WriteOff | Returning

  function InvoiceTypeLabel(t: InvoiceType): string {
    match t
    case Receiving => "Отримання"
    case WriteOff => "Списання"
    case Returning => "Повернення"
  }

  /** The cast `$k::invoice_type_enum`: a label outside the enum is
      rejected. */
  function InvoiceTypeFromLabel(s: string): (r: Option<InvoiceType>)
    ensures r.Some? ==> InvoiceTypeLabel(r.value) == s
    ensures r.None? ==> forall t :: InvoiceTypeLabel(t) != s
  {
    if s == "Отримання" then Some(Receiving)
    else if s == "Списання" then Some(WriteOff)
    else if s == "Повернення" then Some(Returning)
    else None
  }

  /** Invoice statuses as stored: 'Виконується', 'Завершено'. */
  datatype InvoiceStatus = InProgress | Completed

  function InvoiceStatusLabel(s: InvoiceStatus): string {
    match s
    case InProgress => "Виконується"
    case Completed => "Завершено"
  }

  datatype Receipt = Receipt(id: nat, employeeId: int, createdAt: int, kind: ReceiptType)

  /** A row of `products_for_receipt`; `price` is the snapshot taken when
      the line was written. */
  datatype ReceiptLine = ReceiptLine(id: nat, receiptId: int, productId: int,
                                     quantity: int, price: int, employeeId: int)

  /** The columns of a receipt line a return copies: everything but the
      line's own id and its receipt. */
  datatype LineValues = LineValues(productId: int, quantity: int, price: int, employeeId: int)

  function ValuesOf(l: ReceiptLine): LineValues {
    LineValues(l.productId, l.quantity, l.price, l.employeeId)
  }

  datatype Invoice = Invoice(id: nat, employeeId: int, provider: Option<int>, kind: InvoiceType,
                             createdAt: int, completedAt: Option<int>, status: InvoiceStatus)

  /** A row of `products_for_invoice`; the dates are set later by the
      line-update route and start out empty. */
  datatype InvoiceLine = InvoiceLine(id: nat, invoiceId: int, productId: int, quantity: int,
                                     price: int, manufacturedAt: Option<int>, useBy: Option<int>)

  datatype Db = Db(receipts: seq<Receipt>, receiptLines: seq<ReceiptLine>,
                   invoices: seq<Invoice>, invoiceLines: seq<InvoiceLine>,
                   nextReceipt: nat, nextReceiptLine: nat, nextInvoice: nat, nextInvoiceLine: nat)

  /** Serial ids are below their counter, and every line belongs to a
      receipt or invoice that has already been numbered (the foreign keys). */
  predicate Valid(db: Db) {
    && (forall i :: 0 <= i < |db.receipts| ==> db.receipts[i].id < db.nextReceipt)
    && (forall i :: 0 <= i < |db.receiptLines| ==>
          db.receiptLines[i].id < db.nextReceiptLine && 0 <= db.receiptLines[i].receiptId < db.nextReceipt)
    && (forall i :: 0 <= i < |db.invoices| ==> db.invoices[i].id < db.nextInvoice)
    && (forall i :: 0 <= i < |db.invoiceLines| ==>
          db.invoiceLines[i].id < db.nextInvoiceLine && 0 <= db.invoiceLines[i].invoiceId < db.nextInvoice)
  }

  /** A store error as the Prisma client reports it: a known request error
      with its code, message and serialised metadata, or anything else. */
  datatype StoreError =
    | KnownRequestError(code: string, message: string, meta: Option<string>)
    | UnknownError(message: string)

  /** What the store raises for a statement whose integer parameter is NaN
      or whose text does not cast to the column type (SQLSTATE 22P02),
      reported by Prisma as a failed raw query. */
  const InvalidTextRepresentation := KnownRequestError("P2010", "Raw query failed. Code: `22P02`", None)

  /** What the store raises when a line names a receipt or invoice that does
      not exist (SQLSTATE 23503). */
  const ForeignKeyViolation := KnownRequestError("P2010", "Raw query failed. Code: `23503`", None)

  datatype Fault = NoFault | FailAt(step: nat, error: StoreError)

  /** Everything a request depends on besides the store and its input: the
      clock read by `NOW()` and the injected store failure. */
  datatype Env = Env(now: int, fault: Fault)

  predicate FailsAt(env: Env, step: nat) {
    env.fault.FailAt? && env.fault.step == step
  }

  /** The outcome of one statement. */
  datatype Outcome<T> = Done(value: T) | Raised(error: StoreError)

  /** Rows of `s` that satisfy `p`, in table order. */
  function Filter<T>(s: seq<T>, p: T -> bool): (r: seq<T>)
    ensures |r| <= |s|
    ensures forall i :: 0 <= i < |r| ==> r[i] in s && p(r[i])
    ensures forall i :: 0 <= i < |s| && p(s[i]) ==> s[i] in r
    ensures multiset(r) <= multiset(s)
  {
    if |s| == 0 then []
    else
      var rest := Filter(s[..|s| - 1], p);
      assert s == s[..|s| - 1] + [s[|s| - 1]];
      if p(s[|s| - 1]) then rest + [s[|s| - 1]] else rest
  }

  lemma {:induction false} FilterAppend<T>(a: seq<T>, b: seq<T>, p: T -> bool)
    ensures Filter(a + b, p) == Filter(a, p) + Filter(b, p)
    decreases |b|
  {
    if |b| == 0 {
      assert a + b == a;
    } else {
      var c := a + b;
      assert c[..|c| - 1] == a + b[..|b| - 1];
      FilterAppend(a, b[..|b| - 1], p);
    }
  }

  /** A filter nothing in the sequence passes is empty. */
  lemma FilterNone<T>(s: seq<T>, p: T -> bool)
    requires forall i :: 0 <= i < |s| ==> !p(s[i])
    ensures Filter(s, p) == []
  {
  }

  /** A filter everything in the sequence passes is the sequence. */
  lemma {:induction false} FilterAll<T>(s: seq<T>, p: T -> bool)
    requires forall i :: 0 <= i < |s| ==> p(s[i])
    ensures Filter(s, p) == s
    decreases |s|
  {
    if |s| > 0 {
      FilterAll(s[..|s| - 1], p);
      assert s == s[..|s| - 1] + [s[|s| - 1]];
    }
  }

  /** How many copies of `x` a filter keeps: all of them when `x` passes,
      none otherwise. */
  lemma {:induction false} FilterCount<T>(s: seq<T>, p: T -> bool, x: T)
    ensures multiset(Filter(s, p))[x] == if p(x) then multiset(s)[x] else 0
    decreases |s|
  {
    if |s| > 0 {
      FilterCount(s[..|s| - 1], p, x);
      assert s == s[..|s| - 1] + [s[|s| - 1]];
    }
  }

  /** Two tests that agree on every row select the same rows. */
  lemma {:induction false} FilterCongruent<T>(s: seq<T>, p: T -> bool, q: T -> bool)
    requires forall i :: 0 <= i < |s| ==> p(s[i]) == q(s[i])
    ensures Filter(s, p) == Filter(s, q)
    decreases |s|
  {
    if |s| > 0 {
      FilterCongruent(s[..|s| - 1], p, q);
    }
  }

  /** A filter over a row-by-row weakening of a sequence keeps no more rows
      than over the sequence itself. */
  lemma {:induction false} FilterShrinks<T>(a: seq<T>, b: seq<T>, p: T -> bool)
    requires |a| == |b|
    requires forall i :: 0 <= i < |a| && p(a[i]) ==> p(b[i])
    ensures |Filter(a, p)| <= |Filter(b, p)|
    decreases |a|
  {
    if |a| > 0 {
      FilterShrinks(a[..|a| - 1], b[..|b| - 1], p);
    }
  }

  /** The same, strictly, when some row passes in `b` but not in `a`. */
  lemma {:induction false} FilterShrinksStrictly<T>(a: seq<T>, b: seq<T>, p: T -> bool, k: nat)
    requires |a| == |b|
    requires forall i :: 0 <= i < |a| && p(a[i]) ==> p(b[i])
    requires k < |a| && p(b[k]) && !p(a[k])
    ensures |Filter(a, p)| < |Filter(b, p)|
    decreases |a|
  {
    var n := |a| - 1;
    if k == n {
      FilterShrinks(a[..n], b[..n], p);
    } else {
      assert a[..n][k] == a[k] && b[..n][k] == b[k];
      FilterShrinksStrictly(a[..n], b[..n], p, k);
    }
  }

  /** How the store reads a value bound as a raw query parameter into an
      integer column: a number as itself, a string through the integer
      input syntax (surrounding blanks allowed), anything else is rejected
      (`None`, SQLSTATE 22P02). */
  function StoreInteger(v: Js.Value): (r: Option<int>)
    ensures v.Num? ==> r == Some(v.n)
    ensures v.Str? && r.Some? ==> Js.StringToNumber(v.s) == r
    ensures !v.Num? && !v.Str? ==> r.None?
  {
    match v
    case Num(n) => Some(n)
    case Str(s) => if Trim(s) == "" then None else Js.ParseInteger(Trim(s))
    case _ => None
  }

  // ---- receipts -------------------------------------------------------

  /** `SELECT * FROM products_for_receipt WHERE receipt_id = rid`. */
  function LinesOf(db: Db, rid: int): seq<ReceiptLine> {
    Filter(db.receiptLines, (l: ReceiptLine) => l.receiptId == rid)
  }

  /** The employee's drafts, in table order. */
  function DraftsOf(db: Db, employee: int): seq<Receipt> {
    Filter(db.receipts, (r: Receipt) => r.kind == Draft && r.employeeId == employee)
  }

  /** `id` is one of the employee's drafts. */
  predicate IsDraftOf(db: Db, id: int, employee: int) {
    exists d :: d in DraftsOf(db, employee) && d.id == id
  }

  /** `id` is a draft of the employee created no earlier than any other of
      the employee's drafts. */
  predicate IsNewestDraftOf(db: Db, id: int, employee: int) {
    exists d :: d in DraftsOf(db, employee) && d.id == id
                 && forall e :: e in DraftsOf(db, employee) ==> e.createdAt <= d.createdAt
  }

  /** `INSERT INTO receipt ... RETURNING receipt_id`: the new row takes the
      next serial id. */
  function InsertReceipt(db: Db, employee: int, now: int, kind: ReceiptType): (r: (nat, Db))
    requires Valid(db)
    ensures Valid(r.1)
    ensures r.0 == db.nextReceipt
    ensures r.1.receipts == db.receipts + [Receipt(r.0, employee, now, kind)]
    ensures r.1 == db.(receipts := r.1.receipts, nextReceipt := db.nextReceipt + 1)
  {
    var id := db.nextReceipt;
    (id, db.(receipts := db.receipts + [Receipt(id, employee, now, kind)], nextReceipt := id + 1))
  }

  /** A receipt insert adds a draft to its employee's drafts exactly when
      it inserts a draft; every other employee's drafts are unchanged. */
  lemma DraftsAfterInsert(db: Db, employee: int, now: int, kind: ReceiptType, x: int)
    requires Valid(db)
    ensures DraftsOf(InsertReceipt(db, employee, now, kind).1, x)
            == DraftsOf(db, x) + (if kind == Draft && x == employee then [Receipt(db.nextReceipt, employee, now, Draft)] else [])
  {
    var added := Receipt(db.nextReceipt, employee, now, kind);
    FilterAppend(db.receipts, [added], (r: Receipt) => r.kind == Draft && r.employeeId == x);
  }

  /** The values of a run of receipt lines, in order. */
  function ValuesSeq(ls: seq<ReceiptLine>): (vs: seq<LineValues>)
    ensures |vs| == |ls|
    ensures forall i :: 0 <= i < |ls| ==> vs[i] == ValuesOf(ls[i])
  {
    seq(|ls|, i requires 0 <= i < |ls| => ValuesOf(ls[i]))
  }

  /** Numbering lines keeps their values. */
  lemma NumberLinesValues(rid: int, first: nat, vs: seq<LineValues>)
    ensures ValuesSeq(NumberLines(rid, first, vs)) == vs
  {
  }

  /** A receipt that owns no line yet owns exactly the lines one insert then
      writes for it. */
  lemma LinesOfAppended(db: Db, rid: int, first: nat, vs: seq<LineValues>)
    requires forall i :: 0 <= i < |db.receiptLines| ==> db.receiptLines[i].receiptId != rid
    ensures LinesOf(db.(receiptLines := db.receiptLines + NumberLines(rid, first, vs)), rid) == NumberLines(rid, first, vs)
  {
    var p := (l: ReceiptLine) => l.receiptId == rid;
    FilterAppend(db.receiptLines, NumberLines(rid, first, vs), p);
    FilterNone(db.receiptLines, p);
    FilterAll(NumberLines(rid, first, vs), p);
  }

  /** Lines written for one receipt leave every other receipt's lines as
      they were. */
  lemma LinesOfOther(db: Db, rid: int, other: int, first: nat, vs: seq<LineValues>)
    requires rid != other
    ensures LinesOf(db.(receiptLines := db.receiptLines + NumberLines(other, first, vs)), rid) == LinesOf(db, rid)
  {
    var p := (l: ReceiptLine) => l.receiptId == rid;
    FilterAppend(db.receiptLines, NumberLines(other, first, vs), p);
    FilterNone(NumberLines(other, first, vs), p);
  }

  predicate ReceiptExists(db: Db, rid: int) {
    exists i :: 0 <= i < |db.receipts| && db.receipts[i].id == rid
  }

  /** The lines one multi-row `INSERT` writes for receipt `rid`, numbered
      from `first`. */
  function NumberLines(rid: int, first: nat, vs: seq<LineValues>): (ls: seq<ReceiptLine>)
    ensures |ls| == |vs|
    ensures forall i :: 0 <= i < |vs| ==>
              ls[i] == ReceiptLine(first + i, rid, vs[i].productId, vs[i].quantity, vs[i].price, vs[i].employeeId)
  {
    seq(|vs|, i requires 0 <= i < |vs| =>
      ReceiptLine(first + i, rid, vs[i].productId, vs[i].quantity, vs[i].price, vs[i].employeeId))
  }

  /** `INSERT INTO products_for_receipt ... VALUES (...), (...)`: one
      statement, so it writes every line or (on a foreign-key violation)
      none. */
  function InsertReceiptLines(db: Db, rid: int, vs: seq<LineValues>): (r: Outcome<Db>)
    requires Valid(db)
    ensures r.Raised? <==> !ReceiptExists(db, rid) && |vs| > 0
    ensures r.Raised? ==> r.error == ForeignKeyViolation
    ensures r.Done? ==> Valid(r.value)
    ensures r.Done? ==> r.value == db.(receiptLines := db.receiptLines + NumberLines(rid, db.nextReceiptLine, vs),
                                      nextReceiptLine := db.nextReceiptLine + |vs|)
  {
    if |vs| == 0 then Done(db)
    else if !ReceiptExists(db, rid) then Raised(ForeignKeyViolation)
    else
      var ls := NumberLines(rid, db.nextReceiptLine, vs);
      var db' := db.(receiptLines := db.receiptLines + ls, nextReceiptLine := db.nextReceiptLine + |vs|);
      assert Valid(db') by {
        var i :| 0 <= i < |db.receipts| && db.receipts[i].id == rid;
        forall j | 0 <= j < |db'.receiptLines|
          ensures db'.receiptLines[j].id < db'.nextReceiptLine && 0 <= db'.receiptLines[j].receiptId < db'.nextReceipt
        {
          if j >= |db.receiptLines| {
            assert db'.receiptLines[j] == ls[j - |db.receiptLines|];
          }
        }
      }
      Done(db')
  }

  /** `UPDATE receipt SET receipt_type = kind WHERE receipt_id = rid`. */
  function SetReceiptType(receipts: seq<Receipt>, rid: int, kind: ReceiptType): (r: seq<Receipt>)
    ensures |r| == |receipts|
    ensures forall i :: 0 <= i < |receipts| ==>
              r[i] == if receipts[i].id == rid then receipts[i].(kind := kind) else receipts[i]
  {
    seq(|receipts|, i requires 0 <= i < |receipts| =>
      if receipts[i].id == rid then receipts[i].(kind := kind) else receipts[i])
  }

  // ---- invoices -------------------------------------------------------

  predicate InvoiceExists(db: Db, iid: int) {
    exists i :: 0 <= i < |db.invoices| && db.invoices[i].id == iid
  }

  /** `INSERT INTO invoice ... VALUES (..., NOW(), NULL, 'Виконується')`. */
  function InsertInvoice(db: Db, employee: int, provider: Option<int>, kind: InvoiceType, now: int): (r: Db)
    requires Valid(db)
    ensures Valid(r)
    ensures r == db.(invoices := db.invoices + [Invoice(db.nextInvoice, employee, provider, kind, now, None, InProgress)],
                     nextInvoice := db.nextInvoice + 1)
  {
    db.(invoices := db.invoices + [Invoice(db.nextInvoice, employee, provider, kind, now, None, InProgress)],
        nextInvoice := db.nextInvoice + 1)
  }

  /** `INSERT INTO products_for_invoice (product_id, invoice_id, quantity,
      product_price)`; the invoice must exist. The stock trigger's own
      outcome is injected by the caller. */
  function InsertInvoiceLine(db: Db, productId: int, invoiceId: int, quantity: int, price: int): (r: Outcome<Db>)
    requires Valid(db)
    ensures r.Raised? <==> !InvoiceExists(db, invoiceId)
    ensures r.Raised? ==> r.error == ForeignKeyViolation
    ensures r.Done? ==> Valid(r.value)
    ensures r.Done? ==> r.value == db.(invoiceLines := db.invoiceLines +
                                         [InvoiceLine(db.nextInvoiceLine, invoiceId, productId, quantity, price, None, None)],
                                       nextInvoiceLine := db.nextInvoiceLine + 1)
  {
    if !InvoiceExists(db, invoiceId) then Raised(ForeignKeyViolation)
    else
      var db' := db.(invoiceLines := db.invoiceLines +
                       [InvoiceLine(db.nextInvoiceLine, invoiceId, productId, quantity, price, None, None)],
                     nextInvoiceLine := db.nextInvoiceLine + 1);
      assert Valid(db') by {
        var i :| 0 <= i < |db.invoices| && db.invoices[i].id == invoiceId;
      }
      Done(db')
  }
}
