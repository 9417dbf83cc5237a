/** The receipt-line screen of `components/shared/products-for-receipt.tsx`:
    the query it lists lines with, where a text search and the date and
    employee filters exclude each other, and the total it shows under the
    listing. */
module ProductsForReceipt {
  import opened Base
  import Js
  import opened Store
  import PfrRoute

  // ---- the listing's query ----------------------------------------------

  /** The page's filters, each `""` when not set. */
  datatype Filters = Filters(searchValue: string, searchType: string, dateFrom: string, dateTo: string,
                             employeeId: string, receiptType: string)

  /** A date or an employee is chosen. */
  predicate DateOrEmployee(f: Filters) {
    f.dateFrom != "" || f.dateTo != "" || f.employeeId != ""
  }

  /** `fetchProductsForReceipt`'s query string as the route reads it: the
      trimmed search and its column are sent only when no date or employee
      is chosen, the dates and the employee only when the search is blank,
      and neither group when both are set; the receipt type is sent
      whenever it is chosen. */
  function LineQuery(f: Filters): (q: PfrRoute.PfrSearch)
    ensures q.receiptType == f.receiptType
    ensures q.searchValue != "" <==> Trim(f.searchValue) != "" && !DateOrEmployee(f)
    ensures q.searchValue != "" ==> q.searchValue == Trim(f.searchValue) && q.searchType == f.searchType
    ensures q.dateFrom != "" || q.dateTo != "" || q.employeeId != "" <==> Trim(f.searchValue) == "" && DateOrEmployee(f)
    ensures q.dateFrom in {"", f.dateFrom} && q.dateTo in {"", f.dateTo} && q.employeeId in {"", f.employeeId}
  {
    var searching := Trim(f.searchValue) != "";
    if searching && !DateOrEmployee(f) then PfrRoute.PfrSearch(Trim(f.searchValue), f.searchType, "", f.receiptType, "", "")
    else if !searching && DateOrEmployee(f) then
      PfrRoute.PfrSearch("", "", f.employeeId, f.receiptType, f.dateFrom, f.dateTo)
    else PfrRoute.PfrSearch("", "", "", f.receiptType, "", "")
  }

  /** The route never receives a text search together with a date or
      employee filter. */
  lemma NeverBothGroups(f: Filters)
    ensures var q := LineQuery(f);
            PfrRoute.TextSearchOf(q) == PfrRoute.NoTextSearch || (q.dateFrom == "" && q.dateTo == "" && q.employeeId == "")
  {
    var q := LineQuery(f);
    if q.searchValue == "" {
      assert Trim(q.searchValue) == "";
    }
  }

  /** With a search and a date or employee filter both set, the listing is
      filtered by the receipt type alone. */
  lemma ConflictFiltersByTypeOnly(row: PfrRoute.PfrRow, f: Filters, parse: string -> Option<int>)
    requires Trim(f.searchValue) != "" && DateOrEmployee(f)
    ensures PfrRoute.Wanted(row, LineQuery(f), parse)
            <==> (f.receiptType != "" ==> ReceiptTypeLabel(row.receiptType) == f.receiptType)
  {
    assert Trim(LineQuery(f).searchValue) == "";
  }

  /** A receipt-number search alone lists the lines of the receipt the
      trimmed search reads as, of the chosen type. */
  lemma ReceiptSearchListing(row: PfrRoute.PfrRow, f: Filters, parse: string -> Option<int>)
    requires Trim(f.searchValue) != "" && !DateOrEmployee(f) && f.searchType == "receipt_id"
    ensures PfrRoute.Wanted(row, LineQuery(f), parse)
            <==> Js.StringToNumber(Trim(f.searchValue)) == Some(row.receiptId)
                 && (f.receiptType != "" ==> ReceiptTypeLabel(row.receiptType) == f.receiptType)
  {
    TrimTwice(f.searchValue);
    assert PfrRoute.TextSearchOf(LineQuery(f)) == PfrRoute.ByReceipt;
  }

  // ---- the total --------------------------------------------------------

  /** A listed line's quantity and price as the listing sends them. */
  datatype ListedLine = ListedLine(quantity: Js.Value, price: Js.Value)

  /** `Number(quantity) * Number(price)`; `None` is NaN. */
  function Amount(line: ListedLine): (a: Option<int>)
    ensures a.Some? <==> Js.ToNumber(line.quantity).Some? && Js.ToNumber(line.price).Some?
  {
    var q := Js.ToNumber(line.quantity);
    var p := Js.ToNumber(line.price);
    if q.Some? && p.Some? then Some(q.value * p.value) else None
  }

  /** JavaScript `+` on numbers: NaN on either side gives NaN. */
  function Plus(a: Option<int>, b: Option<int>): (c: Option<int>)
    ensures c.None? <==> a.None? || b.None?
  {
    if a.Some? && b.Some? then Some(a.value + b.value) else None
  }

  /** `lines.reduce((acc, item) => acc + amount(item), 0)`, left to right. */
  function Total(lines: seq<ListedLine>): (t: Option<int>)
    decreases |lines|
  {
    if |lines| == 0 then Some(0)
    else Plus(Total(lines[..|lines| - 1]), Amount(lines[|lines| - 1]))
  }

  /** The total is NaN exactly when some line's amount is. */
  lemma {:induction false} TotalNaNIff(lines: seq<ListedLine>)
    ensures Total(lines).None? <==> exists i :: 0 <= i < |lines| && Amount(lines[i]).None?
    decreases |lines|
  {
    if |lines| > 0 {
      var n := |lines| - 1;
      var init := lines[..n];
      TotalNaNIff(init);
      assert forall i :: 0 <= i < n ==> init[i] == lines[i];
    }
  }

  /** The figure under the listing: the total, or 0 for an empty listing. */
  function Shown(lines: seq<ListedLine>): (t: Option<int>)
    ensures |lines| == 0 ==> t == Some(0)
  {
    if |lines| > 0 then Total(lines) else Some(0)
  }

  /** The empty-listing branch shows what the reduction gives anyway. */
  lemma ShownIsTotal(lines: seq<ListedLine>)
    ensures Shown(lines) == Total(lines)
  {
  }

  /** A stored line's quantity times its price. */
  function LineValue(l: ReceiptLine): int {
    l.quantity * l.price
  }

  /** The sum of quantity times price over stored lines, first line first:
      the reference the shown total is checked against. */
  function StoredSum(ls: seq<ReceiptLine>): int
    decreases |ls|
  {
    if |ls| == 0 then 0 else LineValue(ls[0]) + StoredSum(ls[1..])
  }

  lemma {:induction false} StoredSumAppend(a: seq<ReceiptLine>, b: seq<ReceiptLine>)
    ensures StoredSum(a + b) == StoredSum(a) + StoredSum(b)
    decreases |a|
  {
    if |a| > 0 {
      assert (a + b)[0] == a[0];
      assert (a + b)[1..] == a[1..] + b;
      StoredSumAppend(a[1..], b);
    } else {
      assert a + b == b;
    }
  }

  /** How the listing sends a stored line: the quantity as a number and the
      price, a numeric column, as decimal text. */
  function ShownLine(l: ReceiptLine): (v: ListedLine)
    ensures Amount(v) == Some(LineValue(l))
  {
    ListedLine(Js.Num(l.quantity), Js.DecimalText(l.price))
  }

  function ShownLines(ls: seq<ReceiptLine>): (vs: seq<ListedLine>)
    ensures |vs| == |ls| && forall i :: 0 <= i < |ls| ==> vs[i] == ShownLine(ls[i])
  {
    seq(|ls|, i requires 0 <= i < |ls| => ShownLine(ls[i]))
  }

  /** The stored sum with its last line split off. */
  lemma StoredSumLast(ls: seq<ReceiptLine>)
    requires |ls| > 0
    ensures StoredSum(ls) == StoredSum(ls[..|ls| - 1]) + LineValue(ls[|ls| - 1])
  {
    var n := |ls| - 1;
    assert ls == ls[..n] + [ls[n]];
    StoredSumAppend(ls[..n], [ls[n]]);
    assert StoredSum([ls[n]]) == LineValue(ls[n]);
  }

  /** Lines whose amounts are the stored lines' quantity times price, in
      order, total to the stored sum. */
  lemma {:induction false} TotalOfAmounts(vs: seq<ListedLine>, ls: seq<ReceiptLine>)
    requires |vs| == |ls|
    requires forall i :: 0 <= i < |ls| ==> Amount(vs[i]) == Some(LineValue(ls[i]))
    ensures Total(vs) == Some(StoredSum(ls))
    decreases |ls|
  {
    if |ls| > 0 {
      var n := |ls| - 1;
      assert forall i :: 0 <= i < n ==> vs[..n][i] == vs[i] && ls[..n][i] == ls[i];
      TotalOfAmounts(vs[..n], ls[..n]);
      StoredSumLast(ls);
    }
  }

  /** For stored lines the shown total is never NaN and equals the sum of
      quantity times price. */
  lemma TotalOfStored(ls: seq<ReceiptLine>)
    ensures Total(ShownLines(ls)) == Some(StoredSum(ls))
  {
    TotalOfAmounts(ShownLines(ls), ls);
  }
}
