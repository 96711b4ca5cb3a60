/**
 * app/api/orders/route.ts: `POST` creates a pending order from the body as
 * given; `GET` lists every order.
 */
module OrdersRoute {
  import opened Wrappers
  import opened Orders
  import opened OrderIds
  import opened OrderStore
  import opened Http

  /** The fields `POST` reads from the body, passed on without checks. */
  datatype NewOrder = NewOrder(items: seq<CartItem>, delivery: Delivery, subtotal: int, tax: int, total: int)

  /** The draft `POST` hands to `createOrder`: pending, pending, no gateway ids. */
  function PendingDraft(b: NewOrder): (d: Draft)
    ensures d.paymentStatus == PENDING && d.orderStatus == PENDING
    ensures d.razorpayOrderId.None? && d.razorpayPaymentId.None?
    ensures d.items == b.items && d.delivery == b.delivery
    ensures d.subtotal == b.subtotal && d.tax == b.tax && d.total == b.total
  {
    Draft(b.items, b.delivery, b.subtotal, b.tax, b.total, PENDING, PENDING, None, None)
  }

  /** `POST /api/orders`. `body` is `None` when the JSON does not parse. */
  method Post(store: Store, body: Option<NewOrder>, now: Instant, fault: Fault) returns (resp: Response)
    requires store.Valid()
    modifies store
    ensures store.Valid()
    ensures body.None? ==> resp == Response(400, ErrorBody("Failed to create order", None)) && store.rows == old(store.rows)
    ensures body.Some? && store.configured && NextOrderId(old(store.rows), now.date) !in old(store.rows) && fault.NoFault? ==>
      var id := NextOrderId(old(store.rows), now.date);
      resp == Response(201, OrderBody(WithGeneratedFields(PendingDraft(body.value), id, now)))
      && store.rows == old(store.rows)[id := InsertedRow(id, PendingDraft(body.value), now)]
    ensures resp.status == 201 || resp == Response(400, ErrorBody("Failed to create order", None))
    ensures body.Some? ==>
      (resp.status == 201 <==> store.configured && NextOrderId(old(store.rows), now.date) !in old(store.rows) && fault.NoFault?)
    ensures body.Some? && (!store.configured || NextOrderId(old(store.rows), now.date) in old(store.rows) || fault.BeforeCommit?) ==>
      store.rows == old(store.rows)
    ensures body.Some? && store.configured && NextOrderId(old(store.rows), now.date) !in old(store.rows) && fault.AfterCommit? ==>
      var id := NextOrderId(old(store.rows), now.date);
      store.rows == old(store.rows)[id := InsertedRow(id, PendingDraft(body.value), now)]
    ensures WellNumbered(old(store.rows)) && IsCalendarDate(now.date) ==>
      WellNumbered(store.rows)
      && (body.Some? && store.configured && fault.NoFault? ==> resp.status == 201)
  {
    ghost var rows0 := store.rows;
    if WellNumbered(rows0) && IsCalendarDate(now.date) {
      NextIdIsFresh(rows0, now.date);
      if body.Some? {
        InsertKeepsWellNumbered(rows0, now.date, InsertedRow(NextOrderId(rows0, now.date), PendingDraft(body.value), now));
      }
    }
    if body.None? {
      return Response(400, ErrorBody("Failed to create order", None));
    }
    var created := store.CreateOrder(PendingDraft(body.value), now, fault);
    if created.Err? {
      return Response(400, ErrorBody("Failed to create order", None));
    }
    resp := Response(201, OrderBody(created.value));
  }

  /** `GET /api/orders`: every order, oldest first, or 400. */
  method Get(store: Store, fault: Option<string>) returns (resp: Response)
    requires store.Valid()
    ensures fault.Some? ==> resp == Response(400, ErrorBody("Failed to fetch orders", None))
    ensures fault.None? ==>
      && resp.status == 200 && resp.body.OrderListBody?
      && |resp.body.orders| == |store.rows.Keys|
      && SortedByCreation(resp.body.orders) && DistinctIds(resp.body.orders)
      && (forall o :: o in resp.body.orders ==> o.id in store.rows && o == MapRowToOrder(store.rows[o.id]))
  {
    var all := store.GetAllOrders(fault);
    if all.Err? {
      return Response(400, ErrorBody("Failed to fetch orders", None));
    }
    resp := Response(200, OrderListBody(all.value));
  }
}
