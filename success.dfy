/**
 * app/success/page.tsx: after payment the page loads the order with a
 * bounded retry (waits are returned as the list of delays, in
 * milliseconds), and builds the plain-text receipt the customer can
 * download.
 */
module Success {
  import opened Wrappers
  import opened Text
  import opened Orders

  // ---------------------------------------------------------------------------
  // Loading the order

  /** The `orderId` query parameter is usable: present, not empty, not the text "undefined". */
  predicate ShouldFetch(orderId: Option<string>) {
    Truthy(orderId) && orderId.value != "undefined"
  }

  /** What one `fetch` of `/api/orders/<id>` gives: an order, a non-OK status, or a thrown error. */
  datatype FetchResult = Found(order: Order) | Status(code: int) | Thrown

  /** A response the page tries again on, while retries remain. */
  predicate Retryable(r: FetchResult) {
    r.Thrown? || (r.Status? && r.code == 404)
  }

  datatype PageOutcome = Loaded(order: Order) | Failed(message: string)

  const INITIAL_WAIT: int := 800
  const RETRIES: nat := 5

  function FailureMessage(orderId: string): string {
    "Unable to load order details. Please contact support with order ID: " + orderId
  }

  /** What the page shows after its last fetch: the order, or the support message for any failure. */
  function Outcome(orderId: string, last: FetchResult): (o: PageOutcome)
    ensures o.Loaded? <==> last.Found?
    ensures o.Loaded? ==> o.order == last.order
    ensures o.Failed? ==> o.message == FailureMessage(orderId)
  {
    if last.Found? then Loaded(last.order) else Failed(FailureMessage(orderId))
  }

  /** The wait before retry `k` (counting from 0): 1000 ms, growing by 500 ms up to 3000 ms. */
  function RetryDelay(k: nat): (d: int)
    ensures 1000 <= d <= 3000
  {
    if k == 0 then 1000 else Min(RetryDelay(k - 1) + 500, 3000)
  }

  function Min(a: int, b: int): int {
    if a < b then a else b
  }

  /** The first `n` retry waits. */
  function RetryDelays(n: nat): (ds: seq<int>)
    ensures |ds| == n && forall k :: 0 <= k < n ==> ds[k] == RetryDelay(k)
  {
    if n == 0 then [] else RetryDelays(n - 1) + [RetryDelay(n - 1)]
  }

  /** The five retries wait 1000, 1500, 2000, 2500 and 3000 ms. */
  lemma RetryDelaysValues()
    ensures RetryDelays(5) == [1000, 1500, 2000, 2500, 3000]
  {
  }

  /**
   * `fetchOrder(retries = 5, delay = 1000)`, first called after 800 ms.
   * `respond(k)` is what attempt `k` gets back. A 404 or a thrown error is
   * retried while retries remain; any other failure stops at once.
   */
  method FetchOrder(orderId: string, respond: nat -> FetchResult) returns (outcome: PageOutcome, waits: seq<int>, attempts: nat)
    ensures 1 <= attempts <= RETRIES + 1
    ensures waits == [INITIAL_WAIT] + RetryDelays(attempts - 1)
    ensures forall k :: 0 <= k < attempts - 1 ==> Retryable(respond(k))
    ensures attempts <= RETRIES ==> !Retryable(respond(attempts - 1))
    ensures outcome == Outcome(orderId, respond(attempts - 1))
  {
    var retries := RETRIES;
    var delay := 1000;
    waits := [INITIAL_WAIT];
    var response := respond(0);
    attempts := 1;
    while retries > 0 && Retryable(response)
      invariant 0 <= retries <= RETRIES && attempts == RETRIES - retries + 1
      invariant delay == RetryDelay(attempts - 1)
      invariant waits == [INITIAL_WAIT] + RetryDelays(attempts - 1)
      invariant response == respond(attempts - 1)
      invariant forall k :: 0 <= k < attempts - 1 ==> Retryable(respond(k))
      decreases retries
    {
      assert RetryDelays(attempts) == RetryDelays(attempts - 1) + [delay];
      waits := waits + [delay];
      delay := Min(delay + 500, 3000);
      retries := retries - 1;
      response := respond(attempts);
      attempts := attempts + 1;
    }
    outcome := Outcome(orderId, response);
  }

  function Sum(xs: seq<int>): int {
    if xs == [] then 0 else Sum(xs[..|xs| - 1]) + xs[|xs| - 1]
  }

  /** Before the delay reaches its cap, retry `k` waits 1000 + 500k ms. */
  lemma {:induction false} RetryDelayLinear(k: nat)
    requires k <= 4
    ensures RetryDelay(k) == 1000 + 500 * k
  {
    if k > 0 {
      RetryDelayLinear(k - 1);
    }
  }

  lemma SumSnoc(xs: seq<int>, x: int)
    ensures Sum(xs + [x]) == Sum(xs) + x
  {
    assert (xs + [x])[..|xs|] == xs;
  }

  /** Zero to five retries wait 0, 1000, 2500, 4500, 7000 and 10000 ms in all. */
  lemma {:induction false} RetryWaitSum(n: nat)
    requires n <= RETRIES
    ensures Sum(RetryDelays(n)) == [0, 1000, 2500, 4500, 7000, 10000][n]
  {
    if n > 0 {
      RetryWaitSum(n - 1);
      RetryDelayLinear(n - 1);
      SumSnoc(RetryDelays(n - 1), RetryDelay(n - 1));
      assert Sum(RetryDelays(n)) == [0, 1000, 2500, 4500, 7000][n - 1] + 500 * n + 500;
    }
  }

  /** The page waits at most 800 + 10000 ms in all before it shows the order or gives up. */
  lemma TotalWaitBound(n: nat)
    requires n <= RETRIES
    ensures INITIAL_WAIT + Sum(RetryDelays(n)) <= INITIAL_WAIT + 10000
  {
    RetryWaitSum(n);
  }

  // ---------------------------------------------------------------------------
  // The receipt

  /** The currency sign exactly as the source file spells it (the UTF-8 bytes of ₹ read as Windows-1252). */
  const CURRENCY: string := "\U{00E2}\U{201A}\U{00B9}"
  const RULE: string := "=================================================="

  function ItemLine(item: CartItem): (line: string)
    ensures line != ""
  {
    item.cakeName + " (" + item.weight + ") x " + IntToString(item.quantity) + " - " + CURRENCY + IntToString(item.pricePerUnit * item.quantity)
  }

  function ItemLines(items: seq<CartItem>): (r: seq<string>)
    ensures |r| == |items| && forall k :: 0 <= k < |items| ==> r[k] == ItemLine(items[k])
  {
    if items == [] then [] else [ItemLine(items[0])] + ItemLines(items[1..])
  }

  /** The address line: the postal code is appended only when it is a non-empty string. */
  function AddressLine(d: Delivery): (line: string)
    ensures Truthy(d.postalCode) ==> line == "Address: " + d.address + ", " + d.postalCode.value
    ensures !Truthy(d.postalCode) ==> line == "Address: " + d.address
  {
    "Address: " + d.address + (if Truthy(d.postalCode) then ", " + d.postalCode.value else "")
  }

  /** The time-window line, empty (and so dropped) when there is no time window. */
  function TimeWindowLine(d: Delivery): string {
    if Truthy(d.timeWindow) then "Time Window: " + d.timeWindow.value else ""
  }

  /** The eleven lines above the time window: title, order and customer, with two blank spacers. */
  function ReceiptHead(o: Order, createdText: string, deliveryDateText: string): seq<string> {
    HeadTitle() + [""] + HeadOrder(o, createdText) + [""] + HeadCustomer(o, deliveryDateText)
  }

  function HeadTitle(): seq<string> {
    ["SAUNDRYA CAKES MUMBAI - ORDER RECEIPT", RULE]
  }

  function HeadOrder(o: Order, createdText: string): seq<string> {
    ["Order ID: " + o.id, "Date: " + createdText]
  }

  function HeadCustomer(o: Order, deliveryDateText: string): seq<string> {
    ["CUSTOMER DETAILS:",
     "Name: " + o.delivery.name,
     "Phone: " + o.delivery.phone,
     AddressLine(o.delivery),
     "Delivery Date: " + deliveryDateText]
  }

  /** The price summary and closing lines after the items, with two blank spacers. */
  function ReceiptTail(o: Order): seq<string> {
    [""] + TailPrices(o) + [""] + TailClosing()
  }

  function TailPrices(o: Order): seq<string> {
    ["PRICE SUMMARY:",
     "Subtotal: " + CURRENCY + IntToString(o.subtotal),
     "Tax (5%): " + CURRENCY + IntToString(o.tax),
     "Shipping: Free",
     "Total: " + CURRENCY + IntToString(o.total)]
  }

  function TailClosing(): seq<string> {
    [RULE, "Thank you for choosing SAUNDRYA CAKES Mumbai!"]
  }

  /**
   * The receipt's lines before `filter(Boolean)`, blank spacers included.
   * `createdText` and `deliveryDateText` are what the two locale date
   * formatters print.
   */
  function ReceiptLines(o: Order, createdText: string, deliveryDateText: string): seq<string> {
    ReceiptHead(o, createdText, deliveryDateText) + [TimeWindowLine(o.delivery), "", "ITEMS:"]
    + ItemLines(o.items) + ReceiptTail(o)
  }

  /** `filter(Boolean)` on strings: drops the empty ones, keeps the rest in order. */
  function NonEmpty(lines: seq<string>): (r: seq<string>)
    ensures |r| <= |lines|
    ensures forall k :: 0 <= k < |r| ==> r[k] != ""
  {
    if lines == [] then []
    else if lines[0] != "" then [lines[0]] + NonEmpty(lines[1..])
    else NonEmpty(lines[1..])
  }

  lemma {:induction false} NonEmptyAppend(a: seq<string>, b: seq<string>)
    ensures NonEmpty(a + b) == NonEmpty(a) + NonEmpty(b)
  {
    if a == [] {
      assert a + b == b;
    } else {
      assert (a + b)[1..] == a[1..] + b;
      NonEmptyAppend(a[1..], b);
    }
  }

  lemma {:induction false} NonEmptyOfNonEmpty(lines: seq<string>)
    requires forall k :: 0 <= k < |lines| ==> lines[k] != ""
    ensures NonEmpty(lines) == lines
  {
    if lines != [] {
      NonEmptyOfNonEmpty(lines[1..]);
    }
  }

  /** `handleDownloadReceipt`'s text. */
  function Receipt(o: Order, createdText: string, deliveryDateText: string): string {
    Join(NonEmpty(ReceiptLines(o, createdText, deliveryDateText)), "\n")
  }

  /** The lines the receipt keeps: every fixed line, the time window only when given, and one line per item. */
  function KeptLines(o: Order, createdText: string, deliveryDateText: string): seq<string> {
    KeptHead(o, createdText, deliveryDateText) + KeptMiddle(o.delivery) + ItemLines(o.items) + KeptTail(o)
  }

  function KeptHead(o: Order, createdText: string, deliveryDateText: string): seq<string> {
    HeadTitle() + HeadOrder(o, createdText) + HeadCustomer(o, deliveryDateText)
  }

  function KeptMiddle(d: Delivery): seq<string> {
    (if Truthy(d.timeWindow) then [TimeWindowLine(d)] else []) + ["ITEMS:"]
  }

  function KeptTail(o: Order): seq<string> {
    TailPrices(o) + TailClosing()
  }

  /**
   * `filter(Boolean)` removes the four blank spacers and an absent time
   * window, and nothing else: 17 fixed lines, one per item, and the time
   * window when there is one.
   */
  lemma ReceiptKeeps(o: Order, createdText: string, deliveryDateText: string)
    ensures NonEmpty(ReceiptLines(o, createdText, deliveryDateText)) == KeptLines(o, createdText, deliveryDateText)
    ensures |KeptLines(o, createdText, deliveryDateText)| == 17 + |o.items| + (if Truthy(o.delivery.timeWindow) then 1 else 0)
  {
    var head := ReceiptHead(o, createdText, deliveryDateText);
    var mid := [TimeWindowLine(o.delivery), "", "ITEMS:"];
    var items := ItemLines(o.items);
    var tail := ReceiptTail(o);
    NonEmptyAppend(head + mid + items, tail);
    NonEmptyAppend(head + mid, items);
    NonEmptyAppend(head, mid);
    NonEmptyOfNonEmpty(items);
    HeadKept(o, createdText, deliveryDateText);
    MiddleKept(o.delivery);
    TailKept(o);
  }

  /** A blank spacer between two runs of lines is dropped. */
  lemma DropSpacer(a: seq<string>, b: seq<string>)
    ensures NonEmpty(a + [""] + b) == NonEmpty(a) + NonEmpty(b)
  {
    NonEmptyAppend(a + [""], b);
    NonEmptyAppend(a, [""]);
    assert NonEmpty([""]) == [];
  }

  lemma HeadKept(o: Order, createdText: string, deliveryDateText: string)
    ensures NonEmpty(ReceiptHead(o, createdText, deliveryDateText)) == KeptHead(o, createdText, deliveryDateText)
  {
    var title, order, customer := HeadTitle(), HeadOrder(o, createdText), HeadCustomer(o, deliveryDateText);
    DropSpacer(title + [""] + order, customer);
    DropSpacer(title, order);
    NonEmptyOfNonEmpty(title);
    NonEmptyOfNonEmpty(order);
    NonEmptyOfNonEmpty(customer);
  }

  lemma MiddleKept(d: Delivery)
    ensures NonEmpty([TimeWindowLine(d), "", "ITEMS:"]) == KeptMiddle(d)
  {
    var mid := [TimeWindowLine(d), "", "ITEMS:"];
    assert mid == [TimeWindowLine(d)] + ["", "ITEMS:"];
    NonEmptyAppend([TimeWindowLine(d)], ["", "ITEMS:"]);
    assert ["", "ITEMS:"][1..] == ["ITEMS:"];
    NonEmptyOfNonEmpty(["ITEMS:"]);
    if Truthy(d.timeWindow) {
      NonEmptyOfNonEmpty([TimeWindowLine(d)]);
    } else {
      assert [TimeWindowLine(d)][1..] == [];
    }
  }

  lemma TailKept(o: Order)
    ensures NonEmpty(ReceiptTail(o)) == KeptTail(o)
  {
    var prices, closing := TailPrices(o), TailClosing();
    DropSpacer([""] + prices, closing);
    DropSpacer([], prices);
    assert [] + [""] + prices == [""] + prices;
    NonEmptyOfNonEmpty(prices);
    NonEmptyOfNonEmpty(closing);
  }

  /**
   * When no field holds a line break, splitting the downloaded text at
   * line breaks gives back exactly the kept lines.
   */
  lemma ReceiptSplits(o: Order, createdText: string, deliveryDateText: string)
    requires forall k :: 0 <= k < |KeptLines(o, createdText, deliveryDateText)| ==> '\n' !in KeptLines(o, createdText, deliveryDateText)[k]
    ensures Split(Receipt(o, createdText, deliveryDateText), '\n') == KeptLines(o, createdText, deliveryDateText)
  {
    ReceiptKeeps(o, createdText, deliveryDateText);
    assert "\n" == ['\n'];
    SplitJoin(KeptLines(o, createdText, deliveryDateText), '\n');
  }
}
