/**
 * app/api/save-order/route.ts: records a paid order after the payment
 * gateway confirms it. Connection guard, three validation checks, totals
 * defaulting, the delivery object, create-or-fallback, a bounded
 * read-back loop, and the response. Sleeps are returned as the list of
 * delays the route would wait, in milliseconds.
 */
module SaveOrder {
  import opened Wrappers
  import opened Text
  import opened Orders
  import opened OrderIds
  import opened OrderStore
  import opened Http

  /** The customer object of the request; every field may be missing. */
  datatype Customer = Customer(
    name: Option<string>,
    phone: Option<string>,
    address: Option<string>,
    postalCode: Option<string>,
    deliveryDate: Option<string>,
    timeWindow: Option<string>)

  /**
   * The parsed request body. `items` is `None` when it is not an array;
   * `tax` is `None` when it is not a number; the others are `None` when
   * null or missing.
   */
  datatype Payload = Payload(
    orderId: Option<string>,
    paymentId: Option<string>,
    amount: Option<int>,
    subtotal: Option<int>,
    tax: Option<int>,
    items: Option<seq<CartItem>>,
    customer: Option<Customer>)

  /** The three checks, in order; the message of the first that fails. */
  function ValidationError(p: Payload): (e: Option<string>)
    ensures e.None? <==>
      && Truthy(p.orderId) && Truthy(p.paymentId)
      && p.items.Some? && p.items.value != []
      && p.customer.Some? && Truthy(p.customer.value.name)
      && Truthy(p.customer.value.phone) && Truthy(p.customer.value.address)
    ensures !(Truthy(p.orderId) && Truthy(p.paymentId)) ==> e == Some("Missing order or payment identifiers")
  {
    if !Truthy(p.orderId) || !Truthy(p.paymentId) then Some("Missing order or payment identifiers")
    else if p.items.None? || p.items.value == [] then Some("At least one item is required")
    else if p.customer.None? || !Truthy(p.customer.value.name) || !Truthy(p.customer.value.phone)
         || !Truthy(p.customer.value.address) then Some("Incomplete customer information")
    else None
  }

  /** `subtotal ?? Σ price × quantity`, the supplied tax or round(5%), and `amount ?? subtotal + tax`. */
  function NormalizedTotals(p: Payload): (t: (int, int, int))
    requires p.items.Some?
    ensures t.0 == if p.subtotal.Some? then p.subtotal.value else Subtotal(p.items.value)
    ensures p.tax.Some? ==> t.1 == p.tax.value
    ensures p.tax.None? ==> 20 * t.1 - 10 <= t.0 < 20 * t.1 + 10
    ensures t.2 == if p.amount.Some? then p.amount.value else t.0 + t.1
  {
    var subtotal := p.subtotal.GetOr(Subtotal(p.items.value));
    var tax := if p.tax.Some? then p.tax.value else RoundedTax(subtotal);
    (subtotal, tax, p.amount.GetOr(subtotal + tax))
  }

  /** One item of 2 × 500 with nothing else supplied gives 1000, 50 and 1050. */
  lemma TotalsExample(orderId: string, paymentId: string, c: Customer)
    ensures var item := CartItem(1, "Cake", "1kg", 2, 500, None);
      NormalizedTotals(Payload(Some(orderId), Some(paymentId), None, None, None, Some([item]), Some(c)))
        == (1000, 50, 1050)
  {
    var item := CartItem(1, "Cake", "1kg", 2, 500, None);
    assert Subtotal([item]) == Subtotal([]) + LineAmount(item);
  }

  /** The delivery the route builds, as a value. */
  function DeliveryOf(c: Customer): Delivery
    requires Truthy(c.name) && Truthy(c.phone) && Truthy(c.address)
  {
    Delivery(c.name.value, c.phone.value, c.address.value,
             NullIfEmpty(c.postalCode), NullIfEmpty(c.deliveryDate), NullIfEmpty(c.timeWindow))
  }

  /**
   * The delivery object built field by field: the three required fields,
   * and an optional one only when it is not empty; it is `DeliveryOf(c)`.
   */
  method BuildDelivery(c: Customer) returns (d: Delivery)
    requires Truthy(c.name) && Truthy(c.phone) && Truthy(c.address)
    ensures d == DeliveryOf(c)
    ensures d.name == c.name.value && d.phone == c.phone.value && d.address == c.address.value
    ensures d.postalCode.Some? <==> Truthy(c.postalCode)
    ensures d.deliveryDate.Some? <==> Truthy(c.deliveryDate)
    ensures d.timeWindow.Some? <==> Truthy(c.timeWindow)
    ensures d.postalCode.Some? ==> d.postalCode == c.postalCode
    ensures d.deliveryDate.Some? ==> d.deliveryDate == c.deliveryDate
    ensures d.timeWindow.Some? ==> d.timeWindow == c.timeWindow
  {
    d := Delivery(c.name.value, c.phone.value, c.address.value, None, None, None);
    if Truthy(c.postalCode) {
      d := d.(postalCode := c.postalCode);
    }
    if Truthy(c.deliveryDate) {
      d := d.(deliveryDate := c.deliveryDate);
    }
    if Truthy(c.timeWindow) {
      d := d.(timeWindow := c.timeWindow);
    }
  }

  /** The order handed to `createOrder`: paid, pending, carrying both gateway ids. */
  function PaidDraft(p: Payload): (d: Draft)
    requires ValidationError(p).None?
    ensures d.paymentStatus == PAID && d.orderStatus == PENDING
    ensures d.razorpayOrderId == p.orderId && d.razorpayPaymentId == p.paymentId
    ensures d.items == p.items.value && d.delivery == DeliveryOf(p.customer.value)
  {
    var t := NormalizedTotals(p);
    Draft(p.items.value, DeliveryOf(p.customer.value), t.0, t.1, t.2, PAID, PENDING, p.orderId, p.paymentId)
  }

  /** A paid draft is read back from the table exactly as `createOrder` returned it. */
  lemma PaidDraftReadsBack(p: Payload, id: string, now: Instant)
    requires ValidationError(p).None?
    ensures MapRowToOrder(InsertedRow(id, PaidDraft(p), now)) == WithGeneratedFields(PaidDraft(p), id, now)
  {
    ReadBackInserted(id, PaidDraft(p), now);
  }

  /** `TEMP-${Date.now()}`. */
  function TempId(nowMs: int): (id: string)
    ensures StartsWith(id, "TEMP-")
  {
    "TEMP-" + IntToString(nowMs)
  }

  /** A fallback id is never an order id of the table's format. */
  lemma TempIdIsNoOrderId(nowMs: int)
    ensures ParseOrderId(TempId(nowMs)).None?
  {
    assert TempId(nowMs)[..4] == "TEMP";
  }

  /**
   * While every stored id is a well-numbered order id, no read-back can
   * find a fallback order, exactly or ignoring case: the route then reads
   * nine times.
   */
  lemma TempNeverFound(rows: map<string, Row>, nowMs: int)
    requires WellNumbered(rows)
    ensures forall k :: k in rows ==> Lower(k) != Lower(Trim(TempId(nowMs)))
  {
    TempIdTrimmed(nowMs);
    TempIdInitial(nowMs);
    forall k | k in rows
      ensures Lower(k) != Lower(TempId(nowMs))
    {
      assert NumberedIn(rows, k);
      OrderIdInitial(k);
    }
  }

  lemma TempIdInitial(nowMs: int)
    ensures |Lower(TempId(nowMs))| > 0 && Lower(TempId(nowMs))[0] == 't'
  {
  }

  lemma TempIdTrimmed(nowMs: int)
    ensures Trim(TempId(nowMs)) == TempId(nowMs)
  {
    var t := TempId(nowMs);
    var digits := NatToString(if nowMs < 0 then -nowMs else nowMs);
    assert t[|t| - 1] == digits[|digits| - 1];
    DigitIsNoSpace(digits[|digits| - 1]);
    TrimOfTrimmed(t);
  }

  lemma OrderIdInitial(k: string)
    requires ParseOrderId(k).Some?
    ensures |Lower(k)| > 0 && Lower(k)[0] == 'o'
  {
    assert k[..4] == "ORD-";
    assert k[0] == 'O';
  }

  /** The wait before verification retry k (1-based). */
  function RetryDelay(k: nat): (ms: nat)
    ensures ms <= 1000
    ensures k <= 5 ==> ms == 200 * k
  {
    if 200 * k < 1000 then 200 * k else 1000
  }

  /** The sleeps of a run that made `readCount` read-backs: 200 ms first, then one delay per retry. */
  function VerifySchedule(readCount: nat): (s: seq<nat>)
    requires readCount >= 1
    ensures |s| == readCount && s[0] == 200
    ensures forall k :: 1 <= k < readCount ==> s[k] == RetryDelay(k)
  {
    if readCount == 1 then [200] else VerifySchedule(readCount - 1) + [RetryDelay(readCount - 1)]
  }

  function Sum(s: seq<nat>): nat {
    if s == [] then 0 else Sum(s[..|s| - 1]) + s[|s| - 1]
  }

  lemma SumSnoc(s: seq<nat>, x: nat)
    ensures Sum(s + [x]) == Sum(s) + x
  {
    assert (s + [x])[..|s|] == s;
  }

  /** While the delay still grows, one to five read-backs sleep 200, 400, 800, 1400 and 2200 ms in all. */
  lemma {:induction false} ScheduleGrowing(n: nat)
    requires 1 <= n <= 5
    ensures Sum(VerifySchedule(n)) == [200, 400, 800, 1400, 2200][n - 1]
  {
    if n > 1 {
      ScheduleGrowing(n - 1);
      SumSnoc(VerifySchedule(n - 1), RetryDelay(n - 1));
    }
  }

  /** From the fifth read-back on, each retry adds the capped 1000 ms. */
  lemma {:induction false} ScheduleCapped(n: nat)
    requires 5 <= n <= 9
    ensures Sum(VerifySchedule(n)) == 2200 + 1000 * (n - 5)
  {
    if n == 5 {
      ScheduleGrowing(5);
    } else {
      ScheduleCapped(n - 1);
      SumSnoc(VerifySchedule(n - 1), RetryDelay(n - 1));
    }
  }

  /** The route sleeps at most 6.2 s in all before giving up on the nine read-backs. */
  lemma ScheduleTotal(n: nat)
    requires 1 <= n <= 9
    ensures Sum(VerifySchedule(n)) <= 6200
  {
    if n <= 5 {
      ScheduleGrowing(n);
    } else {
      ScheduleCapped(n);
    }
  }

  /** When a read-back fails: the attempt (0 for the first) and the error it throws. */
  datatype ReadFault = ReadFault(attempt: nat, message: string)

  /**
   * One `getOrderById` call during verification. Reads before attempt
   * `visibleFrom` miss the committed row (replication delay).
   */
  method ReadBack(store: Store, id: string, attempt: nat, visibleFrom: nat, readFault: Option<ReadFault>)
    returns (r: Result<Option<Order>, StoreError>)
    requires store.configured
    ensures readFault.Some? && readFault.value.attempt == attempt ==> r == Err(QueryFailed(readFault.value.message))
    ensures !(readFault.Some? && readFault.value.attempt == attempt) ==> r.Ok?
    ensures r.Ok? && r.value.Some? ==> attempt >= visibleFrom
    ensures r.Ok? && attempt >= visibleFrom && Trim(id) in store.rows ==> r.value.Some?
    ensures r.Ok? && (forall k :: k in store.rows ==> Lower(k) != Lower(Trim(id))) ==> r.value.None?
  {
    if readFault.Some? && readFault.value.attempt == attempt {
      return Err(QueryFailed(readFault.value.message));
    }
    if attempt < visibleFrom {
      return Ok(None);
    }
    r := store.GetOrderById(id, None);
  }

  /** An order id has no whitespace at either end, so `getOrderById`'s trim keeps it whole. */
  lemma OrderIdTrimmed(d: Date, num: nat)
    ensures Trim(FormatOrderId(d, num)) == FormatOrderId(d, num)
  {
    var id := FormatOrderId(d, num);
    OrderIdEnds(d, num);
    DigitIsNoSpace(id[|id| - 1]);
    TrimOfTrimmed(id);
  }

  /** The order the route answers with: the stored one, or a TEMP order when creation threw. */
  function ReturnedOrder(p: Payload, rows: map<string, Row>, now: Instant, fault: Fault): (o: Order)
    requires ValidationError(p).None?
    ensures o.createdAt == now && o.updatedAt == now
    ensures o.paymentStatus == PAID && o.orderStatus == PENDING
    ensures o.razorpayOrderId == p.orderId && o.razorpayPaymentId == p.paymentId
  {
    var id := NextOrderId(rows, now.date);
    if id !in rows && fault.NoFault? then WithGeneratedFields(PaidDraft(p), id, now)
    else WithGeneratedFields(PaidDraft(p), TempId(now.epochMs), now)
  }

  /**
   * The read-back loop: one read after the first 200 ms, then up to eight
   * retries, each after `min(200k, 1000)` ms, stopping at the first read
   * that finds the order. `failed` reports a read that threw.
   */
  method VerifyStored(store: Store, id: string, visibleFrom: nat, readFault: Option<ReadFault>)
    returns (failed: bool, sleeps: seq<nat>, readCount: nat)
    requires store.configured
    ensures 1 <= readCount <= 9 && sleeps == VerifySchedule(readCount)
    ensures failed <==> readFault.Some? && readFault.value.attempt < readCount
    ensures failed ==> readFault.value.attempt == readCount - 1
    ensures Trim(id) in store.rows && readFault.None? && visibleFrom <= 8 ==> readCount == visibleFrom + 1
    ensures (forall k :: k in store.rows ==> Lower(k) != Lower(Trim(id))) && readFault.None? ==> readCount == 9
  {
    sleeps := [200];
    var verified := ReadBack(store, id, 0, visibleFrom, readFault);
    readCount := 1;
    if verified.Err? {
      return true, sleeps, readCount;
    }
    var verifyRetries := 0;
    while verified.value.None? && verifyRetries < 8
      invariant 0 <= verifyRetries <= 8
      invariant readCount == verifyRetries + 1
      invariant sleeps == VerifySchedule(readCount)
      invariant verified.Ok?
      invariant readFault.None? || readFault.value.attempt >= readCount
      invariant verified.value.Some? ==> readCount - 1 >= visibleFrom
      invariant Trim(id) in store.rows && readFault.None? && visibleFrom <= 8 ==> readCount <= visibleFrom + 1
      invariant Trim(id) in store.rows && readCount - 1 >= visibleFrom ==> verified.value.Some?
      invariant (forall k :: k in store.rows ==> Lower(k) != Lower(Trim(id))) ==> verified.value.None?
      decreases 8 - verifyRetries
    {
      verifyRetries := verifyRetries + 1;
      var delay := RetryDelay(verifyRetries);
      sleeps := sleeps + [delay];
      verified := ReadBack(store, id, verifyRetries, visibleFrom, readFault);
      readCount := readCount + 1;
      if verified.Err? {
        return true, sleeps, readCount;
      }
      if verified.value.Some? {
        break;
      }
    }
    failed := false;
  }

  /**
   * Creating the paid order: the order the route goes on with is the stored
   * one, or the TEMP fallback when `createOrder` threw.
   */
  method CreatePaid(store: Store, p: Payload, now: Instant, fault: Fault) returns (order: Order)
    requires store.Valid() && store.configured && ValidationError(p).None?
    modifies store
    ensures store.Valid()
    ensures order == ReturnedOrder(p, old(store.rows), now, fault)
    ensures store.rows == StoredAfterCreate(p, old(store.rows), now, fault)
    ensures NextOrderId(old(store.rows), now.date) !in old(store.rows) && fault.NoFault? ==> Trim(order.id) in store.rows
  {
    var draft := PaidDraft(p);
    ghost var rows0 := store.rows;
    var created := store.CreateOrder(draft, now, fault);
    if created.Ok? {
      order := created.value;
      OrderIdTrimmed(now.date, TodaysCount(rows0, now.date) + 1);
    } else {
      order := WithGeneratedFields(draft, TempId(now.epochMs), now);
    }
  }

  /** The table after `createOrder`: the new row unless the insert itself failed or the id was taken. */
  function StoredAfterCreate(p: Payload, rows: map<string, Row>, now: Instant, fault: Fault): (after: map<string, Row>)
    requires ValidationError(p).None?
    ensures rows.Keys <= after.Keys && |after.Keys - rows.Keys| <= 1
  {
    var id := NextOrderId(rows, now.date);
    if id !in rows && !fault.BeforeCommit? then rows[id := InsertedRow(id, PaidDraft(p), now)] else rows
  }

  /** The part of `POST /api/save-order` after validation: create the order, then read it back. */
  method SaveValid(store: Store, p: Payload, now: Instant, fault: Fault, visibleFrom: nat, readFault: Option<ReadFault>)
    returns (resp: Response, sleeps: seq<nat>, readCount: nat)
    requires store.Valid() && store.configured && ValidationError(p).None?
    modifies store
    ensures store.Valid()
    ensures store.rows == StoredAfterCreate(p, old(store.rows), now, fault)
    ensures 1 <= readCount <= 9 && sleeps == VerifySchedule(readCount)
    ensures readFault.None? || readFault.value.attempt >= readCount ==>
      resp == Response(201, OrderBody(ReturnedOrder(p, old(store.rows), now, fault)))
    ensures readFault.Some? && readFault.value.attempt < readCount ==>
      readFault.value.attempt == readCount - 1
      && resp == Response(500, ErrorBody("Failed to save order", Some(MessageOr(readFault.value.message, "Unknown error"))))
    ensures NextOrderId(old(store.rows), now.date) !in old(store.rows) && fault.NoFault? && readFault.None? && visibleFrom <= 8 ==>
      readCount == visibleFrom + 1
    ensures (&& WellNumbered(old(store.rows)) && IsCalendarDate(now.date) && readFault.None?
             && (NextOrderId(old(store.rows), now.date) in old(store.rows) || !fault.NoFault?)) ==>
      readCount == 9
  {
    ghost var rows0 := store.rows;
    var order := CreatePaid(store, p, now, fault);
    if WellNumbered(rows0) && IsCalendarDate(now.date)
      && (NextOrderId(rows0, now.date) in rows0 || !fault.NoFault?)
    {
      var id := NextOrderId(rows0, now.date);
      NextIdIsFresh(rows0, now.date);
      if !fault.BeforeCommit? {
        InsertKeepsWellNumbered(rows0, now.date, InsertedRow(id, PaidDraft(p), now));
      }
      TempNeverFound(store.rows, now.epochMs);
    }
    var failed;
    failed, sleeps, readCount := VerifyStored(store, order.id, visibleFrom, readFault);
    if failed {
      return Response(500, ErrorBody("Failed to save order", Some(MessageOr(readFault.value.message, "Unknown error")))), sleeps, readCount;
    }
    resp := Response(201, OrderBody(order));
  }

  /**
   * `POST /api/save-order`. `probe` is the connection test, `body` the
   * parsed JSON or the parse error, `now` the clock, `fault` a failure
   * inside `createOrder`, `visibleFrom` and `readFault` the behaviour of
   * the read-backs. Returns the response, the sleeps, and how many
   * read-backs were made.
   */
  method Post(store: Store, probe: Probe, body: Result<Payload, string>, now: Instant, fault: Fault,
              visibleFrom: nat, readFault: Option<ReadFault>)
    returns (resp: Response, sleeps: seq<nat>, readCount: nat)
    requires store.Valid()
    modifies store
    ensures store.Valid()
    ensures TestConnection(store.configured, probe).Err? ==>
      resp == Response(500, ErrorBody("Failed to save order", Some(MessageOr(probe.message, "Unknown error"))))
      && store.rows == old(store.rows) && readCount == 0
    ensures TestConnection(store.configured, probe).Ok? && !TestConnection(store.configured, probe).value.connected ==>
      resp == Response(503, ErrorBody("Database connection failed", TestConnection(store.configured, probe).value.error))
      && store.rows == old(store.rows) && readCount == 0
    ensures store.configured && probe.ProbeOk? && body.Err? ==>
      resp == Response(500, ErrorBody("Failed to save order", Some(MessageOr(body.error, "Unknown error"))))
      && store.rows == old(store.rows) && readCount == 0
    ensures store.configured && probe.ProbeOk? && body.Ok? && ValidationError(body.value).Some? ==>
      resp == Response(400, ErrorBody(ValidationError(body.value).value, None))
      && store.rows == old(store.rows) && readCount == 0
    ensures store.configured && probe.ProbeOk? && body.Ok? && ValidationError(body.value).None? ==>
      var p := body.value;
      var id := NextOrderId(old(store.rows), now.date);
      && 1 <= readCount <= 9 && sleeps == VerifySchedule(readCount)
      && (readFault.None? || readFault.value.attempt >= readCount ==>
            resp == Response(201, OrderBody(ReturnedOrder(p, old(store.rows), now, fault))))
      && (readFault.Some? && readFault.value.attempt < readCount ==>
            readFault.value.attempt == readCount - 1
            && resp == Response(500, ErrorBody("Failed to save order", Some(MessageOr(readFault.value.message, "Unknown error")))))
      && (id !in old(store.rows) && fault.NoFault? && readFault.None? && visibleFrom <= 8 ==> readCount == visibleFrom + 1)
      && ((&& WellNumbered(old(store.rows)) && IsCalendarDate(now.date) && readFault.None?
           && (id in old(store.rows) || !fault.NoFault?)) ==> readCount == 9)
      && store.rows == StoredAfterCreate(p, old(store.rows), now, fault)
  {
    sleeps, readCount := [], 0;
    var test := TestConnection(store.configured, probe);
    if test.Err? {
      return Response(500, ErrorBody("Failed to save order", Some(MessageOr(probe.message, "Unknown error")))), sleeps, readCount;
    }
    if !test.value.connected {
      return Response(503, ErrorBody("Database connection failed", test.value.error)), sleeps, readCount;
    }
    if body.Err? {
      return Response(500, ErrorBody("Failed to save order", Some(MessageOr(body.error, "Unknown error")))), sleeps, readCount;
    }
    var p := body.value;
    var invalid := ValidationError(p);
    if invalid.Some? {
      return Response(400, ErrorBody(invalid.value, None)), sleeps, readCount;
    }

    resp, sleeps, readCount := SaveValid(store, p, now, fault, visibleFrom, readFault);
  }
}
