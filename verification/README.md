# sqlad point of sale: a Dafny model of the role router, the API routes and the client guards

sqlad is a Next.js inventory and point-of-sale application on PostgreSQL.
A signed-in employee's database role (`admin_role` or `seller_role`)
selects one of two Prisma store handles, so every query runs with that
role's privileges. The cashier side moves a receipt through three kinds:
a `Чернетка` (draft) collects lines, `Продаж` (sale) finalizes it, and a
`Повернення` (return) copies some or all of a sale's lines into a new
receipt. The stock side handles invoices (`Отримання` receiving,
`Повернення` returning, `Списання` write-off) and their lines.

This project models:

- the role router (`Roles`);
- the session gate and the store-error classifier that every route
  shares (`Http`);
- the seven API routes:
  - receipts (`ReceiptRoute`);
  - drafts (`DraftRoute`);
  - sales (`SalesRoute`);
  - receipt lines (`PfrRoute`);
  - invoice lines (`PfiRoute`);
  - invoices (`InvoiceRoute`);
  - employees (`EmployeeRoute`);
- how the three receipt endpoints work together (`ReceiptLifecycle`);
- the guards and request builders of six client screens (`InvoicePage`,
  `ReceiptsPage`, `ReceiptCreate`, `ProductsForInvoice`,
  `ProductsForOrder`, `ProductsForReceipt`).

The store is a value (`Store.Db`): its tables are sequences in insertion
order, and each table has a serial counter. A route is a pure function
from the store, the session, the decoded request and an environment to
the reply and the new store. The environment (`Store.Env`) holds two
things:

- the request's clock, which stands for `NOW()`;
- an optional injected failure of the k-th store statement, with the
  error the store raised.

A listing route takes the rows of its SQL join as a parameter. It returns
them filtered by the WHERE clause it builds and sorted by its ORDER BY.
The WHERE clause is a list of conditions with `$k` placeholders and their
parameters (`Sql.Query`). Separate lemmas prove what that clause means for
a row.

Values decoded from JSON and query strings are `Js.Value`. It covers
`undefined`, `null`, booleans, integers, `NaN` and strings, with
JavaScript's truthiness and `Number()` conversion. `new Date(text)` is a
parameter `parse: string -> Option<int>` that gives milliseconds, with
`None` for an invalid date.

## Model

| member | source | states |
|---|---|---|
| Roles.GetPrismaByRole | lib/prismaClient.ts:21-32 | `admin_role` selects the admin handle and `seller_role` the seller handle; every other role selects none, and a role never selects the default handle |
| Roles.UrlOf | lib/prismaClient.ts:3-19 | the admin and seller handles connect with their own URLs, which differ from each other and from the default one |
| Roles.RoleHandlesDistinct | lib/prismaClient.ts:21-32 | two roles that select handles select the same one only if they are equal; different roles reach different connection URLs |
| Roles.DeriveRole | app/api/employee/route.ts:99-101 | the derived role is `admin_role` exactly for an administrator and `seller_role` otherwise, and it always selects a handle |
| Http.RouteGate | app/api/receipt/route.ts:86-95 | no session gives 401; a role that selects no handle gives 403; an admitted request runs on its own role's admin or seller handle, never the default one |
| Http.EmployeeListGate | app/api/employee/route.ts:11-19 | a missing or empty role gives 401; a role that selects no handle gives 404 |
| Http.EmployeeGateDiffers | app/api/employee/route.ts:16-19 | for a set role that selects no handle, every other route answers 403 and the employee listing answers 404 |
| Http.ErrorStatus | app/api/receipt/draft/route.ts:55-74 | an error is 403 exactly when it is a P2010 raw-query error whose message or metadata mentions 42501; otherwise it is 500 |
| Http.LineInsertErrorStatus | app/api/pfi/route.ts:136-162 | the lower-cased stock-trigger message gives 400, checked first; then P2010 with 42501 gives 403; everything else gives 500 |
| Http.LineInsertAgreesOffStock | app/api/pfi/route.ts:139-162 | apart from the stock message, the invoice-line route classifies errors exactly like the shared catch block, because lower-casing leaves "42501" unchanged |
| Sql.Push | app/api/pfi/route.ts:40-66 | a pushed condition reads the placeholder equal to the parameter count after the push, and the push keeps placeholders aligned with parameters |
| Sql.Build | app/api/pfr/route.ts:28-70 | the conditions a run of `if (...) push` blocks builds read `$1..$n` in order, each placeholder's parameter is at index k-1, and there are no conditions exactly when no block fires |
| Sql.BuildSatisfies | app/api/pfr/route.ts:31-70 | a row passes the built WHERE clause exactly when it passes every condition that fired, each reading its own parameter |
| Sql.BuildWellFormed | app/api/pfr/route.ts:31-66 | the built clause binds only valid parameters exactly when every condition that fired does |
| Sql.SearchPatternMeaning | app/api/invoice/route.ts:21-39 | with no search every text matches; a search whose trimmed text holds no wildcard matches exactly the texts that contain that trimmed text, ignoring case, so white space around the search never has to occur |
| Sql.LikeContains | app/api/invoice/route.ts:39-56 | `text LIKE '%term%'` holds exactly when the term, free of wildcards, occurs in the text |
| Sql.ILikeContains | app/api/employee/route.ts:54-61 | the case-insensitive pattern matches exactly the texts whose lower-cased form contains the lower-cased term |
| ReceiptRoute.ReceiptFilter | app/api/receipt/route.ts:25-48 | placeholders stay aligned; no condition is added unless both the type and the value are given and the type is one of the three known |
| ReceiptRoute.ReceiptFilterUsable | app/api/receipt/route.ts:29-48 | every parameter is bindable exactly when a receipt-number search is a number and a date search is a valid date |
| ReceiptRoute.ReceiptFilterMeaning | app/api/receipt/route.ts:29-48 | a row passes the clause exactly when it has that id, lies in the half-open day [date, date + 24 h), or has a last name matching `%text%` under ILIKE (a `%` or `_` in the text is a wildcard); without a search, every row passes |
| ReceiptRoute.NextDay | app/api/receipt/route.ts:37-38 | the end of the date window is 24 hours after its start, and an invalid start gives an invalid end |
| ReceiptRoute.ReceiptGet | app/api/receipt/route.ts:10-61 | the gate runs first; a failed query gives ErrorStatus; the rows are exactly the wanted rows of the view, newest first |
| ReceiptRoute.UnfilteredListing | app/api/receipt/route.ts:29-55 | without a usable search pair, the listing is the whole view |
| ReceiptRoute.ReceiptPost | app/api/receipt/route.ts:84-204 | the gate runs first; a falsy employee gives 400 with no change; a return request takes the return branch and any other request the draft branch; existing receipts and lines are never changed |
| ReceiptRoute.ReturnBranch | app/api/receipt/route.ts:108-156 | statement 0 creates the `Повернення` receipt before any line is read; on success the reply carries the new id, and the store only grows |
| ReceiptRoute.ReturnedValues | app/api/receipt/route.ts:135-143 | one inserted row per chosen line, each with the line's product, price and employee, and with the line's quantity or the selection's |
| ReceiptRoute.ReturnAllValues | app/api/receipt/route.ts:127-128 | under `returnAll`, the inserted values are the original lines' values, in the order the store reads them |
| ReceiptRoute.PartialReturnValues | app/api/receipt/route.ts:129-141 | a partial return copies exactly the lines whose selection entry is checked, each once, with the selection's quantity and no bound on it |
| ReceiptRoute.ReturnBranchLines | app/api/receipt/route.ts:113-151 | with no store failure, one receipt and the returned values are appended, and the original's lines are left as they were |
| ReceiptRoute.ReturnCopiesChosenLines | app/api/receipt/route.ts:108-156 | a successful return creates one `Повернення` receipt whose lines are the chosen lines' values |
| ReceiptRoute.ReturnAllRoundTrip | app/api/receipt/route.ts:121-143 | with `returnAll`, the new receipt's lines carry the original lines' values: the two are equal as multisets |
| ReceiptRoute.EmptyReturnShell | app/api/receipt/route.ts:113-156 | a return that checks no line still creates the receipt and reports its id, but inserts no line |
| ReceiptRoute.ReturnLeavesOrphan | app/api/receipt/route.ts:113-124 | when reading the original's lines fails, the new return receipt stays without lines and the reply is an error |
| ReceiptRoute.Newest | app/api/receipt/route.ts:160-165 | the chosen draft is one of the candidates, and none of them was created later |
| ReceiptRoute.DraftBranch | app/api/receipt/route.ts:159-183 | an existing draft's id is returned with no insert; otherwise exactly one draft for the employee is inserted and its id returned |
| ReceiptRoute.FreshReceiptHasNoLines | app/api/receipt/route.ts:113-118 | a receipt numbered at or past the counter has no line yet |
| DraftRoute.DraftPost | app/api/receipt/draft/route.ts:7-74 | the gate runs first; a falsy employee gives 400 with no change; success returns one of the employee's drafts; a store change happens only when there was none, and it inserts exactly one draft |
| DraftRoute.DraftPostFinds | app/api/receipt/draft/route.ts:30-40 | an employee with a draft gets it back, and nothing is written |
| DraftRoute.DraftPostCreates | app/api/receipt/draft/route.ts:41-49 | an employee with no draft gets exactly one new draft with the next id |
| DraftRoute.DraftIdempotent | app/api/receipt/draft/route.ts:30-54 | a second call after a successful one returns the same id and leaves the store unchanged |
| SalesRoute.SalesPut | app/api/receipt/sales/route.ts:7-55 | the gate runs first; a falsy id gives 400; on success every receipt with that id becomes `Продаж` whatever its type, and every other receipt is unchanged |
| SalesRoute.FinalizeIdempotent | app/api/receipt/sales/route.ts:29-32 | finalizing twice equals finalizing once |
| SalesRoute.FinalizeShrinksDrafts | app/api/receipt/sales/route.ts:29-32 | finalizing never adds a draft for any employee |
| ReceiptLifecycle.DraftPostKeepsSingleDrafts | app/api/receipt/draft/route.ts:30-49 | if every employee has at most one draft, the draft endpoint keeps it that way |
| ReceiptLifecycle.ReceiptPostKeepsSingleDrafts | app/api/receipt/route.ts:108-183 | the receipt endpoint keeps the at-most-one-draft invariant in both of its branches |
| ReceiptLifecycle.SalesPutKeepsSingleDrafts | app/api/receipt/sales/route.ts:29-32 | finalizing keeps the invariant |
| ReceiptLifecycle.DraftVariantsAgree | app/api/receipt/route.ts:160-183 | while the invariant holds, the receipt endpoint's draft branch and the draft endpoint return the same reply and the same store |
| ReceiptLifecycle.FinalizeClosesDraft | app/api/receipt/sales/route.ts:29-32 | finalizing an employee's only draft leaves the employee with no draft |
| ReceiptLifecycle.FinalizeStartsNewDraft | app/api/receipt/draft/route.ts:30-49 | after the draft an employee was given is finalized, the next draft request creates a new receipt with a new id |
| PfrRoute.TextSearchOf | app/api/pfr/route.ts:33-46 | a blank search value searches nothing, and so does a search type other than `receipt_id` or `product_name` |
| PfrRoute.PfrFilter | app/api/pfr/route.ts:28-70 | the k-th pushed condition reads `$k`, and its parameter is at index k-1 |
| PfrRoute.PfrFilterEmpty | app/api/pfr/route.ts:68-70 | with no filter set there is no condition, so no WHERE clause |
| PfrRoute.PfrFilterUsable | app/api/pfr/route.ts:33-66 | every parameter is bindable exactly when each number given is a number and each date given is valid |
| PfrRoute.WantedMeetsAll | app/api/pfr/route.ts:48-66 | the listing's filters are six independent conditions that are AND-ed together |
| PfrRoute.ConditionMeaning | app/api/pfr/route.ts:33-66 | each condition that fired holds on a row exactly when that filter is met |
| PfrRoute.PfrFilterMeaning | app/api/pfr/route.ts:31-70 | a row passes the built WHERE clause exactly when it meets every filter that is set: the search, the employee, the receipt type, `dateFrom` (≥) and `dateTo` (≤) |
| PfrRoute.PfrGet | app/api/pfr/route.ts:7-104 | the gate runs first; rows exist exactly when the search is usable and the query does not fail; they are the wanted rows, highest line id first |
| PfrRoute.PfrPost | app/api/pfr/route.ts:127-180 | the gate runs first; any falsy field, including a quantity or price of 0, gives 400 with no change; on success exactly one line is appended, holding the sent receipt, product and quantity as bound and `Number(price)` and `Number(employee_id)`, with nothing recomputed |
| PfrRoute.StockErrorIs500Here | app/api/pfr/route.ts:161-179 | the stock trigger's error is 500 on this route, where the invoice-line route answers 400 |
| PfiRoute.InvoiceTypeKey | app/api/pfi/route.ts:25-29 | exactly `RECEIVING`, `RETURNING` and `WRITEOFF` map, to `Отримання`, `Повернення` and `Списання` |
| PfiRoute.SearchOf | app/api/pfi/route.ts:45-67 | a search condition exists exactly when the value is non-empty and the type is one of the four known |
| PfiRoute.PfiFilterUsable | app/api/pfi/route.ts:40-67 | every parameter is bindable exactly when an id search is a number and a date search is a valid date |
| PfiRoute.PfiFilterMeaning | app/api/pfi/route.ts:40-67 | a row passes the built clause exactly when it has the mapped invoice type, if one is given, and meets the search |
| PfiRoute.UnknownTypeIgnored | app/api/pfi/route.ts:40-43 | a type key outside the map builds the same query as no key |
| PfiRoute.NullsFirstOrdered | app/api/pfi/route.ts:69 | under `ORDER BY date_of_manufacture DESC`, lines with no date come first, then dated lines latest first |
| PfiRoute.PfiGet | app/api/pfi/route.ts:7-94 | the gate runs first; the rows are the wanted rows in manufacture-date order, latest first |
| PfiRoute.PfiPost | app/api/pfi/route.ts:96-163 | the gate runs first; a field that is NaN under `isNaN`, counting an absent one, gives 400 with no insert; on success exactly the four numbers are inserted and the reply is 201 |
| PfiRoute.NeedMinusIgnored | app/api/pfi/route.ts:108-130 | `needMinus` never changes the reply or the store |
| PfiRoute.MissingPriceIs400 | app/api/pfi/route.ts:111-121 | a body without `product_price` gives 400 and the store is unchanged |
| PfiRoute.StockBeforePrivilege | app/api/pfi/route.ts:139-159 | an error carrying both the stock message and 42501 gives 400 here and 403 in the shared classifier |
| InvoiceRoute.SearchTypeOf | app/api/invoice/route.ts:20-36 | `type` defaults to `invoice_id`, and any name outside the five-element whitelist is refused |
| InvoiceRoute.InvoiceGet | app/api/invoice/route.ts:7-79 | the gate runs first; a type outside the whitelist gives 400 before any query; the rows are the matching rows, lowest invoice id first |
| InvoiceRoute.MatchesMeansContains | app/api/invoice/route.ts:38-56 | names and type match case-insensitively; the id and the `YYYY-MM-DD` date match as substrings of their text form |
| InvoiceRoute.BlankSearchMatchesAll | app/api/invoice/route.ts:21-39 | a blank or absent search matches every row |
| InvoiceRoute.KindOf | app/api/invoice/route.ts:139-145 | only a stored type label casts to the enum |
| InvoiceRoute.ProviderBinding | app/api/invoice/route.ts:136-148 | a numeric provider is bound as itself; `undefined` and `null` bind as NULL |
| InvoiceRoute.InvoicePost | app/api/invoice/route.ts:102-155 | the gate runs first; a missing type or a session employee id of 0 or NaN gives 400 with no change; on success the reply is 201 and exactly one in-progress invoice with no completion date is appended |
| InvoiceRoute.CreatedInvoiceIsOpen | app/api/invoice/route.ts:138-155 | a created invoice is `Виконується`, has `completed_at` NULL and carries the request's time, and no other row changes |
| InvoiceRoute.ProviderRecorded | app/api/invoice/route.ts:136-148 | a `null`, empty or absent provider records none; a numeric provider is recorded as given |
| EmployeeRoute.SearchColumnOf | app/api/employee/route.ts:22-37 | `type` defaults to `last_name`, and any name outside the five-column whitelist is refused |
| EmployeeRoute.EmployeeGet | app/api/employee/route.ts:10-62 | the listing's own gate runs first (401, then 404), then the whitelist (400); the rows are the matching rows, lowest employee id first |
| EmployeeRoute.MatchesMeansContains | app/api/employee/route.ts:54-61 | the search is a case-insensitive substring test on a column that is not NULL |
| EmployeeRoute.RoleFor | app/api/employee/route.ts:99-101 | the role is `admin_role` exactly when the position name is `Адміністратор`; otherwise it is `seller_role`, and it never selects the default handle |
| EmployeeRoute.EmployeePost | app/api/employee/route.ts:85-161 | no session or role is read and every statement runs on the default handle; success means all three statements ran; a failure keeps the statements that already ran and is classified like every other route's |
| EmployeeRoute.GrantMatchesRecord | app/api/employee/route.ts:99-137 | on success the recorded role is the one granted, the granted login is the one created, and the role selects the admin handle exactly for an administrator |
| EmployeeRoute.RowWithoutLogin | app/api/employee/route.ts:104-134 | a failing login statement leaves the employee row without a login or grant, and the reply is an error |
| InvoicePage.CheckInvoiceEdit | components/shared/invoice-page.tsx:477-496 | the form throws while rendering an Invalid completion `Date`; otherwise a blank completion date (only a stored `null` or blank text can be) or status is refused, and the edit is refused exactly when creation is later than completion, so equal dates are allowed |
| InvoicePage.SentEditIsOrdered | components/shared/invoice-page.tsx:487-496 | with two valid dates, the edit is sent exactly when creation is not after completion |
| InvoicePage.ClearedDateThrows | components/shared/invoice-page.tsx:550-563 | clearing a date input stores `new Date("")`, which is not blank and which the next render cannot show |
| InvoicePage.EditedCompletionNeverBlank | components/shared/invoice-page.tsx:477-485 | once the completion date has been changed to a valid date, only a blank status makes the form ask to fill all fields |
| InvoicePage.CheckLineUpdate | components/shared/invoice-page.tsx:218-241 | the form throws while rendering an Invalid `Date`; otherwise a falsy date (only a stored one can be) is refused, and the update is refused exactly when manufacture is not before use-by; the body holds only the two dates and the price |
| InvoicePage.SentLineIsOrdered | components/shared/invoice-page.tsx:224-230 | once the form renders with two present dates, both are valid and the update is sent exactly when manufacture is strictly before use-by |
| InvoicePage.SelectType | components/shared/invoice-page.tsx:879-887 | after a choice the body the form posts carries that type; after `Списання` it carries no provider, after any other type the provider chosen before |
| InvoicePage.WriteOffAndBackPostsZero | components/shared/invoice-page.tsx:879-887 | choosing `Списання` and then another type leaves no provider chosen, and the form then posts provider 0 |
| InvoicePage.CreatePayload | components/shared/invoice-page.tsx:847-853 | the provider is `null` exactly for `Списання` or a provider that is not a number; otherwise it is `Number(provider_id)` |
| InvoicePage.WriteOffCreatedWithoutProvider | components/shared/invoice-page.tsx:847-853 | a write-off created from the form records no provider |
| InvoicePage.RouteAcceptsWriteOffWithProvider | app/api/invoice/route.ts:136-155 | the route itself lets a write-off with a provider through, so only the form keeps the rule |
| InvoicePage.UnchosenTypeCreatesNothing | components/shared/invoice-page.tsx:847-861 | submitting with no type chosen creates nothing |
| InvoicePage.ListQuery | components/shared/invoice-page.tsx:115-121 | `type` and `search` are sent only when both are non-empty |
| InvoicePage.ClearedSearchListsAll | components/shared/invoice-page.tsx:115-123 | a cleared search lists every invoice in the view |
| InvoicePage.FindInvoice | components/shared/invoice-page.tsx:681-683 | the result is the first listed invoice with that id, or none when no listed invoice has it |
| InvoicePage.OptionIds | components/shared/products-for-invoice.tsx:312-318 | the option ids are exactly the ids of the listed invoices that pass the filter |
| InvoicePage.LineActionsFollowInvoice | components/shared/invoice-page.tsx:434-443 | with unique ids, a line's edit and delete buttons are shown exactly when its invoice's own edit button is (both hidden for `Завершено`) |
| ReceiptsPage.ToggleChecked | components/shared/receipts.tsx:191-202 | the server's returned lines change for that id only, and for it flip; a line checked for the first time returns one unit, and an entry keeps its quantity |
| ReceiptsPage.SetQuantity | components/shared/receipts.tsx:204-209 | never changes which lines the server returns; sets the quantity for that id only, unbounded |
| ReceiptsPage.QuantityEditReturned | components/shared/receipts.tsx:204-209 | after a quantity edit a partial return copies the same lines, and only the edited line's copy changes, to the new quantity |
| ReceiptsPage.ToggleTwice | components/shared/receipts.tsx:191-202 | toggling twice restores an existing entry, and leaves every line checked as before |
| ReceiptsPage.ToggleReturnAll | components/shared/receipts.tsx:498-505 | the switch flips and no line stays selected |
| ReceiptsPage.ToggleReturnAllRequest | components/shared/receipts.tsx:498-505 | switching on makes the request a return; switching off leaves a form the server reads as a draft request, whatever was selected before |
| ReceiptsPage.ReturnOfferedByType | components/shared/receipts.tsx:372-381 | the return action is offered exactly for receipts that are not `Повернення` |
| ReceiptsPage.QuantityInput | components/shared/receipts.tsx:573-594 | the input appears exactly when the switch is off, the line is checked and it holds more than one unit; its bounds are 1 to the line's quantity |
| ReceiptsPage.QuantityBoundsNotEnforced | components/shared/receipts.tsx:573-594 | the input's 1..quantity bounds are not enforced: any quantity typed into a shown input is what the return copies for that line |
| ReceiptsPage.PayloadIsReturnIff | components/shared/receipts.tsx:214-219 | the server reads the payload as a return exactly when the switch is on or some entry exists; the untouched form asks for a draft |
| ReceiptsPage.UncheckedLineMakesEmptyReturn | components/shared/receipts.tsx:191-219 | a line checked and then unchecked still sends a return, which creates a `Повернення` receipt with no lines |
| ReceiptsPage.ReturnAllCopiesReceipt | components/shared/receipts.tsx:503-506 | with the switch on, the new receipt copies every line of the original, whatever was selected before |
| ReceiptCreate.PageDraftIsOwn | components/shared/receipt-create.tsx:45-53 | the draft the page receives belongs to the signed-in employee |
| ReceiptCreate.PriceOf | components/shared/receipt-create.tsx:109-111 | the price is that of the first in-stock entry with the selected id, or `undefined` when there is none |
| ReceiptCreate.AddRequest | components/shared/receipt-create.tsx:94-98 | nothing is sent unless both the product and the quantity are non-empty |
| ReceiptCreate.AddBody | components/shared/receipt-create.tsx:104-111 | the product and quantity are sent as numbers, with the draft id, the session employee and the stock list's price |
| ReceiptCreate.ZeroQuantityRefused | components/shared/receipt-create.tsx:95-108 | a quantity of "0" passes the page's guard and the route then refuses it with 400 |
| ReceiptCreate.PriceIsSnapshot | components/shared/receipt-create.tsx:109-111 | the stored line has the draft's id and the price the stock list showed |
| ReceiptCreate.UnlistedProductRefused | components/shared/receipt-create.tsx:109-111 | a product missing from the stock list is sent without a price and refused with 400 |
| ReceiptCreate.DraftLinesWanted | components/shared/receipt-create.tsx:200 | the page's line search wants exactly the draft's lines |
| ReceiptCreate.ReceiptSearchWanted | app/api/pfr/route.ts:33-36 | a receipt-number search for a value that reads as an id wants exactly that receipt's lines |
| ReceiptCreate.ListingOfOneReceipt | app/api/pfr/route.ts:98-104 | a listing that wants one receipt's lines has rows exactly when that receipt has a line |
| ReceiptCreate.SellOfferedIffDraftHasLines | components/shared/receipt-create.tsx:484-493 | the sell button is shown exactly when the draft has at least one line |
| ProductsForInvoice.LineQuery | components/shared/products-for-invoice.tsx:41-52 | the search pair is sent only for a non-blank search with a known type; the invoice type is passed through |
| ProductsForInvoice.BlankSearchSearchesNothing | components/shared/products-for-invoice.tsx:45-48 | a blank search adds no search condition |
| ProductsForInvoice.InitialListsReceiving | components/shared/products-for-invoice.tsx:27-29 | the screen opens listing `Отримання` lines with no search |
| ProductsForInvoice.AddOfferedByInvoice | components/shared/products-for-invoice.tsx:269-288 | "Add" is offered exactly when the line's invoice is `Завершено` and not `Повернення` |
| ProductsForInvoice.UnlistedNotOffered | components/shared/products-for-invoice.tsx:269-288 | a line whose invoice is not listed offers no "Add" |
| ProductsForInvoice.TargetOptions | components/shared/products-for-invoice.tsx:312-318 | the target options are exactly the listed invoices that are not `Завершено` |
| ProductsForInvoice.OwnInvoiceNeverTarget | components/shared/products-for-invoice.tsx:269-318 | the invoice a line is added from is never offered as its target |
| ProductsForInvoice.EmptyLineNeverAccepted | components/shared/products-for-invoice.tsx:330-334 | a line with no units can never be added, since the bound is 1 to its quantity |
| ProductsForInvoice.Submit | components/shared/products-for-invoice.tsx:119-130 | a body is sent exactly for a selected line and a form within bounds; it carries `needMinus: false` and no `product_price` |
| ProductsForInvoice.SubmitRefused | components/shared/products-for-invoice.tsx:122-130 | every body the form sends is refused by the route with 400, and nothing is stored |
| ProductsForInvoice.CorrectedSubmit | components/shared/products-for-invoice.tsx:119-130 | the same body with the line's price added, sent in the same cases |
| ProductsForInvoice.CorrectedSubmitAdds | components/shared/products-for-invoice.tsx:119-130 | with the price added, the route answers 201 and stores exactly the line, with a quantity between 1 and the source line's |
| ProductsForOrder.TargetOptions | components/shared/products-for-order.tsx:342-352 | the targets are exactly the listed invoices that are `Виконується` and `Отримання` |
| ProductsForOrder.TargetIffOpenReceiving | components/shared/products-for-order.tsx:342-352 | with unique ids, an invoice is a target exactly when it is in progress and receiving |
| ProductsForOrder.Submit | components/shared/products-for-order.tsx:176-187 | a body is sent exactly for a selected item and a form with quantity ≥ 1 and price ≥ 0; it carries that item's product |
| ProductsForOrder.NoItemNoRequest | components/shared/products-for-order.tsx:176-177 | with no item selected nothing is sent |
| ProductsForOrder.SubmitAdds | components/shared/products-for-order.tsx:176-187 | a submitted order adds exactly that line to the target invoice, with the reply 201 |
| ProductsForOrder.ReorderFlagHasNoEffect | components/shared/products-for-order.tsx:182-186 | `needMinus: true` changes nothing at the route: the reply and store are those of the same body without it, and only invoice lines can change |
| ProductsForReceipt.LineQuery | components/shared/products-for-receipt.tsx:41-55 | the search is sent only when it is non-blank and no date or employee is set; dates and employee are sent only when the search is blank and one of them is set; the type is always passed |
| ProductsForReceipt.NeverBothGroups | components/shared/products-for-receipt.tsx:41-51 | the search group and the date/employee group are never both sent |
| ProductsForReceipt.ConflictFiltersByTypeOnly | components/shared/products-for-receipt.tsx:41-55 | with both kinds of filter set, the listing filters by receipt type only |
| ProductsForReceipt.ReceiptSearchListing | components/shared/products-for-receipt.tsx:44-46 | a receipt-number search lists exactly that receipt's lines of the chosen type |
| ProductsForReceipt.TotalNaNIff | components/shared/products-for-receipt.tsx:326-331 | the total is NaN exactly when some line's quantity or price is not a number |
| ProductsForReceipt.ShownIsTotal | components/shared/products-for-receipt.tsx:325-333 | the displayed figure is the sum, and 0 for an empty list |
| ProductsForReceipt.StoredSumAppend | components/shared/products-for-receipt.tsx:326-331 | the sum of quantity times price splits over concatenation |
| ProductsForReceipt.TotalOfStored | components/shared/products-for-receipt.tsx:323-333 | the total shown for stored lines is Σ quantity × price of those lines |

## Left out

- SQL text and database-side behaviour are not modelled. That covers the stock-arithmetic triggers, the `receipt_with_total` and `products_in_stock` views, and the `total_price` subquery of the line listing. The trigger's "insufficient stock" error, a privilege rejection and any other error are injected as a failure of a numbered statement.
- Parameters the store cannot bind fail the statement as a P2010 error without 42501, so the reply is 500. These are a NaN number, an invalid date, a type label outside the enum, and a line whose receipt or invoice does not exist. The foreign key to providers, products and employees is not checked.
- The employee route's `CREATE ROLE`/`GRANT` DDL, password handling and string-interpolated SQL are modelled only as entries in the list of statements the route runs. The model does not capture the injection they allow, or whether the login already exists.
- EmployeeRoute.EmployeePost: for a body whose hire date or position cannot be bound, the contract states only that nothing runs and the reply is not 200. It does not promise which of 403 or 500 Postgres's error text would lead to.
- The employee insert binds the text fields as they arrive; the store's conversion of non-string JSON values to text is not modelled.
- Concurrency is not modelled. That leaves out the race between the draft lookup and its insert, and the non-atomic "create return receipt, then insert lines" sequence. Each call is one sequential step; `ReturnLeavesOrphan` shows what the missing transaction leaves behind.
- Numbers are integers. `Number()` reads trimmed signed decimal integer text and nothing else, so a price with a fraction such as `"12.50"` reads as NaN, where the program reads 12.5. Floating point, `toFixed(2)` and `step="0.01"` are not modelled. The members below state what the program does only for whole-number prices; for a fractional price their reply differs from the program's.
- ProductsForOrder.Submit: refuses a price with a fraction, which the `step="0.01"` input accepts and the program sends.
- PfiRoute.PfiPost: answers 400 for a fractional price, where the program inserts the line and answers 201.
- PfrRoute.PfrPost: answers 500 for a fractional price, where the program inserts the line and answers 200.
- ReceiptCreate.AddBody: sends the listed price text unchanged, so a fractional listed price reaches `PfrRoute.PfrPost` as NaN; `ReceiptCreate.PriceIsSnapshot` therefore covers whole-number prices only.
- ProductsForInvoice.CorrectedSubmitAdds: proved for a selected line whose price text is a whole number.
- ProductsForReceipt.TotalNaNIff: a fractional price counts as NaN in the model, so the total is NaN where the program shows a number.
- Dates are integer milliseconds, and `new Date(text)` is a parameter. The invoice page's edit forms hold either the text the listing delivered or, once a date input is changed, the `Date` made from it; the other screens' date filters are the text they hold. A stored date that does not parse would also make the invoice forms throw; the store delivers valid dates only.
- The store's `LOWER`, `ILIKE` and the text searches fold only Latin A-Z and the Cyrillic capitals (including Ґ, Є, І, Ї). Postgres under a UTF-8 locale folds other letters too (É to é, for example), so `Sql.ILikeContains`, `Sql.SearchPatternMeaning` and both `MatchesMeansContains` lemmas are case-insensitive only for those alphabets.
- Unordered `SELECT`s are read in table (insertion) order. The program promises no order for them; the contracts that rely on one are the draft lookup's `LIMIT 1` and the sequence equality of `ReceiptRoute.ReturnAllRoundTrip`, whose multiset equality is what the program guarantees.
- A number input is modelled as the text it holds. The browser's own validation of `type="number"` and the form library's `required`/`min`/`max` checks are stated as predicates on that text.
- The invoice-type map in the line listing is looked up with `invoiceTypeMap[invoiceType]`. Object prototype keys such as `constructor` are truthy there and are not modelled; only the three map keys are.
- React rendering (apart from the invoice page's date inputs, whose rendering throws on an Invalid Date), toasts, the 200 ms debounce, the 3-second reset, loading flags and the zustand stores are presentation and are left out.
- The thin CRUD and lookup routes are left out: provider, products, categories, position, productsOrder, getall, and the `[id]` routes. The statistics routes are left out too. The shared gate and classifier are what those routes would add.
- Prisma client construction, environment URLs beyond naming them, and the next-auth session transport are left out. The session is a parameter.
- The code differs from the behaviour one might read into the design in these places, and the model follows the code:
  - the receipt-line insert answers the stock trigger's error with 500, not 400;
  - finalizing a receipt checks neither its current type nor its lines;
  - the invoice listing's `invoice_id` search is a substring match on the id's text, not an equality;
  - `POST /api/employee` runs on the default handle with no session or role check.

## Findings

| source | as written | input that shows it | evidently intended | confidence | as-written member | corrected member |
|---|---|---|---|---|---|---|
| components/shared/products-for-invoice.tsx:122-130 | the body sent to `POST /api/pfi` is the product id, the form's `invoice_id` and `quantity`, and `needMinus: false`, with no `product_price`; the route checks `isNaN(product_price)` on the missing field and answers 400 | any accepted form, e.g. line quantity 5, target invoice "3", quantity "2" | the body also carries the selected line's `product_price`, so the line is added to the target invoice | not executed | ProductsForInvoice.SubmitRefused | ProductsForInvoice.CorrectedSubmitAdds |
