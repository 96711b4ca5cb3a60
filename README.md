# Saundrya Cakes order flow, modelled in Dafny

This project models the order and administration core of the Saundrya Cakes
shop, a Next.js web application written in TypeScript. It covers:

- the browser cart, kept in `localStorage`, and the cart and checkout pages;
- the routes that save a paid order and list or create orders;
- the Postgres order store (`lib/db.ts`), with the `orders` table as a map
  from id to row and `out_of_stock_items` as a set of product ids;
- the success page's bounded retry and its plain-text receipt;
- the admin dashboard's filters, sorting, CSV export and status updates;
- the admin one-time-password (OTP) login over WhatsApp, and the base64
  admin token;
- the stock toggle route that rewrites the product catalogue file;
- the command-line WhatsApp test script and its `.env.local` parser.

Each source file is one Dafny module. Code that changes state in place is
modelled as a class with `modifies` clauses:

- the order store;
- the transient order map;
- the OTP service;
- the browser cart storage;
- the catalogue file;
- the script's environment.

Each of these methods is proved against a specification function. Pure code
is modelled as functions, and its properties are proved as lemmas.

Clocks, the network, the database driver, Twilio and the file system
become parameters:

- a clock reading becomes an `Instant` or a millisecond count;
- a failing query becomes a fault argument;
- an SDK call becomes an `ApiOutcome`;
- a file becomes its parsed content.

`Wrappers` (Option and Result) and `Text` (the JavaScript string operations
the source uses: `trim`, `\s` and `\D` replacement, `split`, `join`,
`padStart`, decimal rendering) are shared helpers.

Things the model makes visible about the code as written:

- **Deleting an order can break order creation.**
  - `createOrder` numbers each order `ORD-YYYYMMDD-NNNN` from today's row count plus one.
  - `OrderStore.NextIdIsFresh` proves the next id is free while no row of the day has been deleted.
  - `OrderStore.DeleteThenCreateCollides` shows what happens after deleting order 1 of a day with two orders: the next create chooses order 2's id again, and the insert violates the primary key.
- **The admin token can be forged.** `Admin.ValidateAdminToken` looks only at the digits before the first colon of the decoded text. `Admin.ForgedTokenAccepted` proves that the base64 encoding of the bare admin number passes.
- **`lib/cart.ts` does not compile as written.** `export function removeFromCart` sits inside the body of `addToCart`, because the closing brace of `addToCart` (and its `return cart`) comes after it. An `export` inside a function body is a syntax error. The model treats the two as separate operations, as the pages use them, with `addToCart` returning the cart.
- **A comma in a field shifts the CSV columns.** The CSV export does not quote fields. A line therefore splits into eight columns plus one per comma inside its fields, and any comma in a customer name shifts every later column (`Dashboard.CommaInNameShiftsColumns`).
- **The receipt shows a garbled rupee sign.** The success page's receipt spells the rupee sign as the three characters `â‚¹`: the UTF-8 bytes of ₹ read as Windows-1252. The model keeps that text (`Success.CURRENCY`). The dashboard's CSV uses a real ₹.
- **A fallback order is never stored.** When `createOrder` throws, the save-order route answers with a `TEMP-<ms>` order that is never stored. `SaveOrder.TempNeverFound` proves that no read-back can find it while every stored id is a well-numbered order id. So, as long as no read-back throws, verification runs all nine reads (`SaveOrder.SaveValid`).
- **A blank recipient is not caught.** With no sender configured, the test script accepts a recipient made only of spaces. It then stops with exit code 2, because both addresses are empty (`SendTestOtp.BlankRecipientWithoutSender`).

## Model

| member | source | states |
|---|---|---|
| Orders.NullIfEmpty | lib/db.ts:215-216 | `x \|\| null`: present exactly when the text is present and non-empty, and then unchanged |
| Orders.MapRowToOrder | lib/db.ts:97-112 | the order carries the row's id and timestamps; an empty gateway id reads back as absent |
| Orders.WithGeneratedFields | lib/db.ts:243-250 | the returned order is the draft with the new id and `createdAt = updatedAt = now` |
| Orders.ReadBackInserted | lib/db.ts:202-250 | reading back the inserted row gives the order `createOrder` returned exactly when neither gateway id is the empty text (an empty one reads back as absent) |
| Orders.RoundedTax | app/checkout/page.tsx:146 | `Math.round(5%)`: the tax is within half a unit of subtotal/20 |
| Orders.SubtotalAppend | app/cart/page.tsx:55 | the subtotal of two runs of lines is the sum of their subtotals |
| Orders.SubtotalNonNegative | app/cart/page.tsx:55 | non-negative prices and quantities give a non-negative subtotal |
| OrderIds.DateKeyShape | lib/db.ts:192-196 | the date key is eight digits: year, two-digit month, two-digit day |
| OrderIds.OrderIdShape | lib/db.ts:197-198 | `ORD-`, the date key, `-`, and the sequence padded to four digits (longer from 1000 on) |
| OrderIds.SequenceDigits | lib/db.ts:197 | `padStart(4,"0")` gives four digits below 1000 and the plain number from 1000 on |
| OrderIds.OrderIdEnds | lib/db.ts:197-198 | a generated id begins with `O` and ends with a digit |
| OrderIds.OrderIdRoundTrip | lib/db.ts:187-198 | parsing a generated id gives back its date and sequence number |
| OrderIds.OrderIdInjective | lib/db.ts:187-198 | distinct (date, sequence) pairs never share an id |
| OrderStore.TestConnection | lib/db.ts:23-38 | no connection string gives a report with an error; otherwise connected exactly when the probe succeeds; a failed connect throws |
| OrderStore.NextIdIsFresh | lib/db.ts:187-198 | while ids are well numbered, the generated id is not yet in the table |
| OrderStore.InsertCounts | lib/db.ts:188 | an insert raises its own day's count by one and lowers no day's count |
| OrderStore.InsertKeepsWellNumbered | lib/db.ts:187-219 | inserting under the generated id keeps every id numbered within its day's count |
| OrderStore.DeleteThenCreateCollides | lib/db.ts:187-198 | after deleting order 1 of a two-order day, the next generated id is order 2's, already in the table |
| OrderStore.ColumnName | lib/db.ts:274 | the camelCase-to-snake_case column name has no capitals |
| OrderStore.ColumnNameAppend | lib/db.ts:274 | the regex replacement works character by character |
| OrderStore.ColumnNameOfLowerKey | lib/db.ts:274 | a key without capitals is its own column name |
| OrderStore.OneCapital | lib/db.ts:274 | a capital becomes `_` and its lower-case letter |
| OrderStore.StatusColumns | lib/db.ts:274 | `paymentStatus` and `orderStatus` map to `payment_status` and `order_status` |
| OrderStore.Assigned | lib/db.ts:272-273 | every key but `id` and `createdAt` becomes an assignment, in order |
| OrderStore.JoinSnoc | lib/db.ts:287 | joining one more field appends the separator and the field |
| OrderStore.CollectAssignments | lib/db.ts:269-285 | the i-th kept key becomes `col = $(i+1)` with its value as parameter i, skipped keys leave no gap |
| OrderStore.BuildUpdateStatement | lib/db.ts:269-289 | one `col = $n` per kept key numbered from 1, `updated_at = $k`, `WHERE id = $k+1`; values in key order, then `now`, then `id` |
| OrderStore.ApplyAssignments | lib/db.ts:291-293 | an accepted update keeps the row's id and sets `updated_at` to now |
| OrderStore.SetColumnEffect | lib/db.ts:274-281 | one assignment sets its own column to its value and leaves every other column and the id as they were |
| OrderStore.ApplyKeepsOthers | lib/db.ts:269-293 | a column that no assignment names keeps its value |
| OrderStore.ApplySetsColumn | lib/db.ts:269-293 | a column named by the k-th assignment, and by no later one, ends with that assignment's value |
| OrderStore.UpdatesEffect | lib/db.ts:264-293 | after an accepted update the id is kept, `updated_at` is now, unnamed columns keep their values and each named column holds the value given for it |
| OrderStore.UpdateKeepsColumn | lib/db.ts:264-293 | a column no chosen key names keeps its value through an accepted update |
| OrderStore.UpdateSetsColumn | lib/db.ts:264-293 | the column of each chosen key holds that key's value after an accepted update |
| OrderStore.SingleAccepted | lib/db.ts:269-285 | a single assignable key of the right type is the whole statement and is accepted |
| OrderStore.SingleUpdate | lib/db.ts:269-293 | a single-key update is that one column set, plus `updated_at` |
| OrderStore.OrderStatusUpdate | lib/db.ts:264-293 | `{ orderStatus }` changes exactly the order status and `updated_at` |
| OrderStore.PaymentStatusUpdate | lib/db.ts:264-293 | `{ paymentStatus }` changes exactly the payment status and `updated_at` |
| OrderStore.InsertByCreation | lib/db.ts:118 | inserting an order into a list keeps its multiset plus the order |
| OrderStore.InsertKeepsSorted | lib/db.ts:118 | insertion keeps `ORDER BY created_at ASC` |
| OrderStore.InsertKeepsDistinct | lib/db.ts:114-123 | inserting an order with a new id keeps ids distinct |
| OrderStore.Store.constructor | lib/db.ts:3-15 | an empty store, configured or not |
| OrderStore.Store.CreateOrder | lib/db.ts:176-262 | not configured throws; a fault rolls back; otherwise the row is inserted under `NextOrderId` and the returned order reads back equal |
| OrderStore.Store.GetOrderById | lib/db.ts:125-162 | not configured throws; the trimmed id's row, else a case-insensitive match, else null |
| OrderStore.Store.GetOrderByRazorpayOrderId | lib/db.ts:164-174 | null exactly when no row carries that gateway order id, otherwise such a row |
| OrderStore.Store.GetAllOrders | lib/db.ts:114-123 | every row once, as orders, oldest first |
| OrderStore.Store.UpdateOrder | lib/db.ts:264-297 | a missing id gives null and no change; an accepted statement replaces the row with the updated one and returns it |
| OrderStore.Store.DeleteOrder | lib/db.ts:299-308 | the row is removed; the result says whether one was there |
| OrderStore.Store.SetOutOfStock | lib/db.ts:326-355 | without a connection string, or when the statement fails, `false` and no change; a failing table setup (outside the `try`) rejects with its error; `true` exactly when configured and the statement runs, and then the product id is added or removed as the flag says |
| OrderStore.Store.GetOutOfStockItems | lib/db.ts:357-373 | the marked ids; the empty set when unconfigured or when the query fails; a failing table setup rejects with its error |
| TransientOrders.Without | lib/transient-orders.ts:13-15 | the key list without `k`, all other keys kept |
| TransientOrders.WithoutDistinct | lib/transient-orders.ts:13-15 | removing a present key from a repeat-free list shortens it by one and keeps it repeat-free |
| TransientOrders.TransientStore.constructor | lib/transient-orders.ts:3 | the map starts empty, with no keys in iteration order |
| TransientOrders.TransientStore.Save | lib/transient-orders.ts:5-7 | `Map.set`: the entry is set; a new id goes last in iteration order |
| TransientOrders.TransientStore.Get | lib/transient-orders.ts:9-11 | the stored value, or null |
| TransientOrders.TransientStore.Clear | lib/transient-orders.ts:13-15 | only that id is removed |
| TransientOrders.TransientStore.List | lib/transient-orders.ts:17-19 | one value per stored id, in insertion order |
| OrdersRoute.PendingDraft | app/api/orders/route.ts:9-17 | the draft is pending/pending with no gateway ids and the body's items, delivery and amounts |
| OrdersRoute.Post | app/api/orders/route.ts:4-23 | unparsable body or a failing create gives 400; 201 exactly when the store is configured, the next id is free and no fault occurs, and then the row is stored under that id; on every failure before the commit the table is unchanged; on well-numbered rows the id is always free, numbering is kept, and a configured store without fault answers 201 |
| OrdersRoute.Get | app/api/orders/route.ts:25-32 | all orders oldest first, or 400 on a query error |
| SaveOrder.ValidationError | app/api/save-order/route.ts:49-59 | the three checks in order; none fails exactly when ids, items and customer are present |
| SaveOrder.NormalizedTotals | app/api/save-order/route.ts:61-64 | `subtotal ?? Σ`, the supplied tax or round(5%), `amount ?? subtotal + tax` |
| SaveOrder.TotalsExample | app/api/save-order/route.ts:61-64 | one item of 2 × 500 gives 1000, 50 and 1050 |
| SaveOrder.BuildDelivery | app/api/save-order/route.ts:67-83 | the required fields copied; an optional field present exactly when it was non-empty; the result is `DeliveryOf` the customer |
| SaveOrder.PaidDraft | app/api/save-order/route.ts:87-97 | paid, pending, both gateway ids, the request's items and delivery |
| SaveOrder.PaidDraftReadsBack | app/api/save-order/route.ts:87-101 | a paid draft reads back from the table as it was returned |
| SaveOrder.TempId | app/api/save-order/route.ts:108 | the fallback id starts with `TEMP-` |
| SaveOrder.TempIdIsNoOrderId | app/api/save-order/route.ts:108 | a fallback id never parses as an order id |
| SaveOrder.TempNeverFound | app/api/save-order/route.ts:102-123 | on well-numbered rows (every stored id is an order id numbered within its day's count), no stored id matches a fallback id, even ignoring case |
| SaveOrder.RetryDelay | app/api/save-order/route.ts:136 | `min(200k, 1000)` |
| SaveOrder.VerifySchedule | app/api/save-order/route.ts:126-145 | 200 ms first, then one capped delay per retry |
| SaveOrder.ScheduleGrowing | app/api/save-order/route.ts:126-145 | one to five reads sleep 200, 400, 800, 1400 and 2200 ms in all |
| SaveOrder.ScheduleCapped | app/api/save-order/route.ts:126-145 | from the fifth read on, each retry adds the capped 1000 ms |
| SaveOrder.ScheduleTotal | app/api/save-order/route.ts:126-145 | the sleeps add up to at most 6.2 s over nine reads |
| SaveOrder.ReadBack | app/api/save-order/route.ts:130-139 | a read finds the row once it is visible; no read finds an id that matches nothing |
| SaveOrder.OrderIdTrimmed | app/api/save-order/route.ts:130 | a generated id survives `getOrderById`'s trim |
| SaveOrder.ReturnedOrder | app/api/save-order/route.ts:85-123 | stored or fallback, the answer is paid/pending with both gateway ids and `now` timestamps |
| SaveOrder.TempIdInitial | app/api/save-order/route.ts:108 | a lower-cased fallback id begins with `t`, so it cannot equal a lower-cased `ORD-` id |
| SaveOrder.TempIdTrimmed | app/api/save-order/route.ts:108 | a fallback id has no outer whitespace, so `getOrderById`'s trim leaves it as it is |
| SaveOrder.OrderIdInitial | lib/db.ts:197-198 | an id that parses as an order id lower-cases to one beginning with `o` |
| SaveOrder.StoredAfterCreate | lib/db.ts:176-221 | `createOrder` adds at most one key and removes none |
| SaveOrder.CreatePaid | app/api/save-order/route.ts:85-123 | the order the route goes on with is the stored one or the TEMP fallback; the table changes as `createOrder` leaves it; with a free id and no fault the trimmed id is stored |
| SaveOrder.VerifyStored | app/api/save-order/route.ts:126-151 | at most nine reads on the schedule; stops at the first that finds the order; a thrown read stops the route |
| SaveOrder.SaveValid | app/api/save-order/route.ts:85-157 | after validation: 201 with the returned order unless a read-back throws (then 500 with its message); one to nine reads on the schedule; a stored row visible after n missed reads takes n + 1 reads; on well-numbered rows the fallback order takes all nine reads when none throws |
| SaveOrder.Post | app/api/save-order/route.ts:33-168 | 503 when the probe fails, 400 per validation message, otherwise 201 with the returned order, 500 on a thrown error |
| Cart.LoadCart | lib/cart.ts:16-33 | the stored array in a browser, `[]` for nothing, bad JSON or a non-array |
| Cart.FirstMatch | lib/cart.ts:53 | the first entry with that cake and weight, or -1 |
| Cart.FindIndex | lib/cart.ts:53 | the scan returns the first matching index, or -1 when none matches |
| Cart.AddExisting | lib/cart.ts:55-60 | adding to an existing line sums quantities, takes a given message, and touches no other entry |
| Cart.AddNew | lib/cart.ts:61-63 | a new line is appended |
| Cart.AddKeepsUnique | lib/cart.ts:50-81 | adding never creates a second entry for the same cake and weight |
| Cart.RemoveByKey | lib/cart.ts:85 | the filtered cart is never longer than the original |
| Cart.RemoveByKeyMembers | lib/cart.ts:83-104 | removal keeps exactly the entries with another key |
| Cart.RemoveByKeyAppend | lib/cart.ts:83-104 | removal works entry by entry, keeping order |
| Cart.RemoveReplaced | lib/cart.ts:83-104 | replacing an entry by one with the same key does not change what removal keeps |
| Cart.AddThenRemove | lib/cart.ts:50-104 | removing the key of an added item gives the cart without that line |
| Cart.CartKeyInjective | app/cart/page.tsx:39 | for non-negative cake ids, equal keys mean the same cake and weight |
| Cart.CartStorage.SaveCart | lib/cart.ts:35-48 | in a browser stores the array and dispatches one event; elsewhere nothing |
| Cart.CartStorage.AddToCart | lib/cart.ts:50-81 | returns `Added` of the loaded cart and, with `localStorage`, stores it; one event from `saveCart` with `localStorage`, one more whenever `window` exists |
| Cart.CartStorage.RemoveFromCart | lib/cart.ts:83-104 | returns the loaded cart without the entries under the key and, with `localStorage`, stores it; events counted as for `addToCart` |
| CartPage.SetQuantity | app/cart/page.tsx:37-41 | each entry under the key gets the new quantity; others unchanged |
| CartPage.Positive | app/cart/page.tsx:42 | a line is kept exactly when it is in the cart with a positive quantity; order is kept |
| CartPage.PositiveAppend | app/cart/page.tsx:42 | filtering two runs of lines is filtering each and joining the results |
| CartPage.PositiveOfPositive | app/cart/page.tsx:42 | the filter keeps an all-positive cart as it is |
| CartPage.UpdateKeepsEntries | app/cart/page.tsx:35-46 | a positive quantity changes only the quantities under the key |
| CartPage.ZeroRemoves | app/cart/page.tsx:35-53 | setting zero or less is the same as `handleRemove` |
| CartPage.CartTotals | app/cart/page.tsx:55-57 | the subtotal, the rounded 5% tax, and their sum |
| CartPage.RemoveLowersSubtotal | app/cart/page.tsx:48-57 | removal lowers the subtotal by exactly the removed lines' amount |
| CartPage.KeyedLines | app/cart/page.tsx:50 | the lines under a key |
| CartPage.EmptyTotals | app/cart/page.tsx:55-59 | an empty cart shows zero totals |
| Checkout.ValidateForm | app/checkout/page.tsx:46-66 | each error key present exactly when its check fails, with its message; valid exactly when there is no error |
| Checkout.WithField | app/checkout/page.tsx:68-70 | each of the six named fields takes the new value with the others kept; an unknown name changes nothing |
| Checkout.ClearError | app/checkout/page.tsx:71-77 | a present non-empty error for the field is dropped; nothing else changes |
| Checkout.CheckoutAmounts | app/checkout/page.tsx:90 | the cart's totals, and the amount in paise as 100 × total |
| Checkout.CustomerOf | app/checkout/page.tsx:108-115 | the required fields as typed; empty optional fields become absent |
| Checkout.AcceptedFormIsComplete | app/checkout/page.tsx:108-115 | an accepted form passes the save-order customer check and its delivery keeps exactly the filled optional fields |
| Dashboard.Keep | app/admin/dashboard/page.tsx:52-74 | `filter`: every kept order satisfies the predicate |
| Dashboard.KeepMembers | app/admin/dashboard/page.tsx:52-74 | an order is kept exactly when it is in the list and satisfies the predicate |
| Dashboard.FilteredMembers | app/admin/dashboard/page.tsx:49-75 | an order is shown exactly when it matches search, status and both date bounds |
| Dashboard.InvalidFromHidesAll | app/admin/dashboard/page.tsx:65-68 | an invalid from-date hides every order |
| Dashboard.InsertNewest | app/admin/dashboard/page.tsx:76-78 | inserting keeps newest-first order and the multiset |
| Dashboard.SortNewestFirst | app/admin/dashboard/page.tsx:76-78 | the sort is newest first and a permutation |
| Dashboard.VisibleSound | app/admin/dashboard/page.tsx:49-81 | the visible list is newest first and holds exactly the filtered orders |
| Dashboard.CsvFields | app/admin/dashboard/page.tsx:85-94 | eight fields: id, name, phone, address, `₹` followed by the total, payment status, order status, formatted date |
| Dashboard.CsvLines | app/admin/dashboard/page.tsx:96 | one comma-joined line per order |
| Dashboard.JoinFree | app/admin/dashboard/page.tsx:96 | a character in no part and not in the separator is not in the join |
| Dashboard.CsvLineCount | app/admin/dashboard/page.tsx:96 | without line breaks in fields, the CSV has one line per order plus the header |
| Dashboard.CsvFieldCount | app/admin/dashboard/page.tsx:96 | without commas in fields, a line splits back into its eight fields |
| Dashboard.CommaInNameShiftsColumns | app/admin/dashboard/page.tsx:85-96 | a line splits into eight columns plus the commas inside its fields; any comma in the name gives more than eight |
| Dashboard.CommaCountPositive | app/admin/dashboard/page.tsx:96 | a text holding a comma counts at least one |
| Dashboard.SplitCount | app/admin/dashboard/page.tsx:96 | splitting on commas gives one more part than commas |
| Dashboard.JoinCommaCount | app/admin/dashboard/page.tsx:96 | commas in a join are the separators plus those inside parts |
| Dashboard.ReplaceById | app/admin/dashboard/page.tsx:341-343 | the orders with the updated id are replaced; the rest are kept |
| Dashboard.ReplaceIdempotent | app/admin/dashboard/page.tsx:341-343 | applying the same update twice is applying it once |
| Dashboard.StatusRequest | app/admin/dashboard/page.tsx:375-384 | no request when the status is unchanged; otherwise the selected status |
| Dashboard.AfterStatusResponse | app/admin/dashboard/page.tsx:386-389 | a failed response changes nothing; an OK response replaces the order |
| Success.RetryDelay | app/success/page.tsx:54 | each wait is between 1000 and 3000 ms |
| Success.RetryDelays | app/success/page.tsx:39-81 | the first `n` waits, in order |
| Success.RetryDelaysValues | app/success/page.tsx:39-81 | the five retries wait 1000, 1500, 2000, 2500, 3000 ms |
| Success.Outcome | app/success/page.tsx:60-79 | the order is shown exactly when the last fetch found it; every failure shows the support message with the order id |
| Success.FetchOrder | app/success/page.tsx:39-84 | 1–6 attempts after 800 ms, with those waits; only 404s and throws are retried; the last response decides between the order and the support message |
| Success.RetryWaitSum | app/success/page.tsx:39-81 | zero to five retries wait 0, 1000, 2500, 4500, 7000 and 10000 ms in all |
| Success.TotalWaitBound | app/success/page.tsx:39-84 | at most 10.8 s of waiting before the page gives up |
| Success.ItemLine | app/success/page.tsx:144-146 | an item line is never empty |
| Success.AddressLine | app/success/page.tsx:135-137 | the postal code is appended only when non-empty |
| Success.NonEmpty | app/success/page.tsx:156 | `filter(Boolean)` keeps no empty line |
| Success.NonEmptyAppend | app/success/page.tsx:156 | the filter works line by line |
| Success.ReceiptKeeps | app/success/page.tsx:126-157 | the filter drops the four spacers and an absent time window only: 17 + items (+1) lines |
| Success.ReceiptSplits | app/success/page.tsx:126-157 | without line breaks in fields, the receipt splits back into its kept lines |
| Twilio.Load | lib/twilio.ts:3-17 | a client exactly when both credentials are non-empty and the SDK accepts them; the sender without whitespace |
| Twilio.EnsureWhatsAppPrefix | lib/twilio.ts:19-24 | the result starts with `whatsapp:`; already prefixed numbers are unchanged |
| Twilio.PrefixIdempotent | lib/twilio.ts:19-24 | prefixing twice is prefixing once |
| Twilio.MapSendError | lib/twilio.ts:57-71 | codes 21211, 21608 and 21212 get their messages; others `Twilio error: <message>` |
| Twilio.SendWhatsAppMessage | lib/twilio.ts:26-73 | no client or no sender fails first; a send happens only between distinct addresses; equal addresses fail with the same-number message; between distinct addresses a send gives its sid and an API error the mapped message |
| Twilio.RemoveWhitespaceIdempotent | lib/twilio.ts:36-38 | removing whitespace a second time changes nothing |
| Twilio.RecipientWhitespace | lib/twilio.ts:36-38 | whitespace in the recipient makes no difference |
| Admin.OtpText | lib/admin.ts:20-22 | a generated code prints as six digits |
| Admin.OtpService.constructor | lib/admin.ts:12 | the OTP store starts empty and satisfies its invariant (only the admin number, six-digit codes) |
| Admin.AfterSend | lib/admin.ts:27-42 | an unregistered number leaves the store; the admin number gets the code expiring in five minutes |
| Admin.AfterVerify | lib/admin.ts:79-105 | an accepted or expired code is deleted; a wrong code or a missing entry leaves the store |
| Admin.SingleUse | lib/admin.ts:101-104 | an accepted code is not accepted again |
| Admin.SendThenVerify | lib/admin.ts:27-105 | the code just sent is accepted within five minutes |
| Admin.ExpiredRefused | lib/admin.ts:89-93 | after five minutes the code is refused |
| Admin.LatestCodeWins | lib/admin.ts:38-42 | a second send replaces the first code |
| Admin.OnlyAdminHoldsCodes | lib/admin.ts:28-42 | only the admin number ever holds a code |
| Admin.SendResponse | lib/admin.ts:27-74 | success exactly for the admin number with Twilio configured and a sent message; every failure after storing carries the code as `demoOtp` |
| Admin.OtpService.SendOtp | lib/admin.ts:27-74 | the store becomes `AfterSend` and the result is `SendResponse` |
| Admin.OtpService.VerifyOtp | lib/admin.ts:79-105 | the answer is `Accepts` on the old store, and the store becomes `AfterVerify` |
| Admin.AsciiBytes | lib/admin.ts:107-112 | each ASCII character is one byte of the same value |
| Admin.DigitsBeforeColonOfDigits | lib/admin.ts:114-123 | for `digits:rest` the digits before the colon are the digits |
| Admin.TokenRoundTrip | lib/admin.ts:107-123 | a created token validates exactly when the mobile's digits are the admin number |
| Admin.ForgedTokenAccepted | lib/admin.ts:114-123 | the base64 of the bare admin number validates |
| Base64.CharOfValue | lib/admin.ts:111 | the alphabet character of a 6-bit value decodes back to it |
| Base64.GroupChars | lib/admin.ts:111 | the decoder reads back the four values of an encoded group |
| Base64.GroupBytes | lib/admin.ts:111 | regrouping four 6-bit values gives the three bytes |
| Base64.DecodeEncode | lib/admin.ts:111-117 | decoding an encoding gives the bytes back |
| AdminRoutes.Login | app/api/admin/login/route.ts:4-28 | bad JSON gives 400; missing fields 400; otherwise 200 with a token that validates exactly when the OTP is accepted, else 401 |
| AdminRoutes.SendOtp | app/api/admin/send-otp/route.ts:4-34 | bad JSON gives 500; missing mobile 400; otherwise the store is `AfterSend` and a failure gives 400 with the error and the code |
| UpdateStock.FirstProduct | app/api/products/update-stock/route.ts:34 | the first product whose id is `===` the request's, or -1 |
| UpdateStock.FalsyIdsRefused | app/api/products/update-stock/route.ts:19-21 | 0, "", false, null and an absent id are all refused as falsy |
| UpdateStock.FindProduct | app/api/products/update-stock/route.ts:34-37 | the scan returns `FirstProduct` |
| UpdateStock.Updated | app/api/products/update-stock/route.ts:34-43 | absent exactly when no product has that id; otherwise the same length |
| UpdateStock.UpdateTouchesFirstOnly | app/api/products/update-stock/route.ts:40-43 | only the first match's flag changes; its other fields and every other product are kept |
| UpdateStock.UpdateIdempotent | app/api/products/update-stock/route.ts:34-46 | the same request twice leaves the catalogue as once |
| UpdateStock.ProductsFile.Post | app/api/products/update-stock/route.ts:7-60 | 401 before the body is read; 400 for a falsy id or non-boolean flag; 404 for no file or no product; 500 on errors; only 200 writes, echoing id and flag |
| SendTestOtp.SplitLines | scripts/send_test_otp.js:10 | `split(/\r?\n/)`: no line holds a line feed; each drops the carriage return before its line feed |
| SendTestOtp.ParseLine | scripts/send_test_otp.js:12-17 | a parsed line is not blank, a comment or a separator and holds `=`; the key has no `=`; key and value are trimmed |
| SendTestOtp.ValueKeepsEquals | scripts/send_test_otp.js:14-17 | only the first `=` separates key and value |
| SendTestOtp.ApplySets | scripts/send_test_otp.js:19 | a parsed line sets its variable unless it already holds a non-empty value |
| SendTestOtp.SetStaysSet | scripts/send_test_otp.js:11-20 | a variable with a non-empty value is never overwritten |
| SendTestOtp.FirstOccurrenceWins | scripts/send_test_otp.js:11-20 | the first line that gives a variable a non-empty value decides it |
| SendTestOtp.Environment.LoadDotEnv | scripts/send_test_otp.js:7-24 | an unreadable file changes nothing; otherwise the environment is the lines applied in order |
| SendTestOtp.LocalPrefix | scripts/send_test_otp.js:33-37 | empty stays empty; otherwise as `lib/twilio.ts` prefixes |
| SendTestOtp.RunScript | scripts/send_test_otp.js:39-72 | exit 1 exactly when a credential or the recipient is missing; once ready, exit 2 exactly when the two numbers are equal, exit 3 exactly when they differ and the API fails, and otherwise delivery from the sender to the recipient |
| SendTestOtp.ArgWhitespace | scripts/send_test_otp.js:46-55 | whitespace in a non-blank recipient argument makes no difference to the outcome |
| SendTestOtp.BlankRecipientWithoutSender | scripts/send_test_otp.js:47-63 | no sender and a blank recipient stop with exit 2 |
| SendTestOtp.SameNumberStops | scripts/send_test_otp.js:54-63 | the sender number given as recipient stops with exit 2 |
| Text.SplitJoin | app/admin/dashboard/page.tsx:96 | splitting a join on a separator found in no part gives the parts back |
| Text.IntToStringInjective | lib/db.ts:197 | different integers print differently |
| Text.LowerIdempotent | app/admin/dashboard/page.tsx:55-56 | lower-casing a lower-cased text changes nothing |

## Left out

- The Postgres pool, the SQL text of the DDL (`ensureTable`, `ensureOutOfStockTable`), connection handling and replication. Each query is modelled by its effect on the map or set, plus a fault argument.
- Concurrency: two `createOrder` calls racing between the count and the insert, and interleaved requests against the in-memory OTP and transient maps.
- Time: every clock reading is a parameter. One request uses one reading. The calendar date of `CURRENT_DATE` and of `new Date()` is assumed to be the same day.
- Date formatting: `toISOString`, `toLocaleString("en-IN")` and `toLocaleDateString("en-IN")` are not modelled. Formatted text is passed in as parameters.
- Date parsing: `new Date(text)` is a parameter (`ParsedDate`). Likewise the end-of-day bound of the dashboard's to-date, and its time zone.
- Floating point: `Math.round(x * 0.05)` is modelled exactly as `(x + 10) / 20`. JSON numbers are integers.
- Request bodies: fields with the wrong JSON type are not modelled; each body is a record of the fields the route reads, or an error message for a body that does not parse. The update-stock route is the exception: it keeps JSON values for its two checked fields.
- Twilio sends are foreign calls: each send is an outcome argument (`Twilio.ApiOutcome`). The message texts of `sendOTP` and of the test script are not modelled.
- The order notifications (`sendOrderNotifications`, with its Resend e-mail and WhatsApp notice) are left out. The save-order route starts them without awaiting them, and they catch their own errors (lib/notifications.tsx:49-59), so they never change the route's answer or the stored orders.
- Razorpay itself is left out: its order and payment ids reach the model only as request fields.
- The browser's `localStorage.setItem` failing (`window.dispatchEvent` is modelled only as the count of `cartUpdated` events), `navigator.vibrate`, React state batching and page rendering.
- The `console` logging, and the debugging query for recent ids in `getOrderById`.
- Success.FetchOrder: the delays are returned as a list rather than awaited. The error body of a non-OK response is not read.
- Dashboard.SortNewestFirst: the stability of `Array.prototype.sort` for orders with the same timestamp is not stated.
- Dashboard.FilteredMembers: the search's `toLowerCase` is modelled for ASCII, Latin-1 and basic Cyrillic capitals only; other scripts and the context rules of `toLowerCase` (final sigma, dotted capital I) are not modelled.
- OrderStore.Store.GetOrderById: the SQL `LOWER` of the case-insensitive lookup is modelled by the same character mapping; collation-specific lower-casing is not modelled.
- SendTestOtp.RunScript: a Twilio constructor that throws ends the process through an unhandled rejection; that exit is not modelled.
- UpdateStock.ProductsFile.Post: the JSON text of `cakes.json` and the key order of a rewritten product are not modelled; the file is its parsed list of products.
- Strings are sequences of Unicode scalar values. JavaScript counts text outside the Basic Multilingual Plane as two UTF-16 units; those lengths are not modelled.
- The `generateOTP` randomness: the code is a parameter constrained to six digits.
