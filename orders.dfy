/**
 * The order record shared by the store, the API routes and the pages
 * (lib/db.ts `Order`, `CartItem`, `DeliveryDetails`), the row shape the
 * `orders` table holds, and the price arithmetic every caller repeats.
 */
module Orders {
  import opened Wrappers

  /** A calendar date. */
  datatype Date = Date(year: nat, month: nat, day: nat)

  /**
   * A point in time: milliseconds since the epoch, together with its calendar
   * date in the server's time zone (what `created_at::date` and `new Date()`'s
   * getters give). The ISO text form is not modelled.
   */
  datatype Instant = Instant(epochMs: int, date: Date)

  /**
   * What `new Date(text)` gives for text typed into a form: an invalid date
   * (NaN, which compares false with everything), or a time in milliseconds.
   */
  datatype ParsedDate = InvalidDate | AtMs(ms: int)

  /** One line of a cart or of an order. */
  datatype CartItem = CartItem(
    cakeId: int,
    cakeName: string,
    weight: string,
    quantity: int,
    pricePerUnit: int,
    customMessage: Option<string>)

  /** Delivery details; the last three are optional. */
  datatype Delivery = Delivery(
    name: string,
    phone: string,
    address: string,
    postalCode: Option<string>,
    deliveryDate: Option<string>,
    timeWindow: Option<string>)

  const PENDING: string := "pending"
  const PAID: string := "paid"

  /**
   * An order as the application sees it. The two statuses are free text, as
   * in the table: the update path can write any value into them.
   */
  datatype Order = Order(
    id: string,
    items: seq<CartItem>,
    delivery: Delivery,
    subtotal: int,
    tax: int,
    total: int,
    paymentStatus: string,
    orderStatus: string,
    razorpayOrderId: Option<string>,
    razorpayPaymentId: Option<string>,
    createdAt: Instant,
    updatedAt: Instant)

  /** The argument of `createOrder`: an order without `id`, `createdAt` and `updatedAt`. */
  datatype Draft = Draft(
    items: seq<CartItem>,
    delivery: Delivery,
    subtotal: int,
    tax: int,
    total: int,
    paymentStatus: string,
    orderStatus: string,
    razorpayOrderId: Option<string>,
    razorpayPaymentId: Option<string>)

  /** A row of the `orders` table; `None` in a gateway-id column is SQL NULL. */
  datatype Row = Row(
    id: string,
    items: seq<CartItem>,
    delivery: Delivery,
    subtotal: int,
    tax: int,
    total: int,
    paymentStatus: string,
    orderStatus: string,
    razorpayOrderId: Option<string>,
    razorpayPaymentId: Option<string>,
    createdAt: Instant,
    updatedAt: Instant)

  /** JavaScript truthiness of an optional string: present and not empty. */
  predicate Truthy(x: Option<string>) {
    x.Some? && x.value != ""
  }

  /** JavaScript `x || null` on an optional string: the empty string is falsy too. */
  function NullIfEmpty(x: Option<string>): (r: Option<string>)
    ensures r.Some? <==> Truthy(x)
    ensures r.Some? ==> r == x
  {
    if x.Some? && x.value != "" then x else None
  }

  /** The row `createOrder` inserts for `draft` under `id` at `now`. */
  function InsertedRow(id: string, draft: Draft, now: Instant): Row {
    Row(id, draft.items, draft.delivery, draft.subtotal, draft.tax, draft.total,
        draft.paymentStatus, draft.orderStatus,
        NullIfEmpty(draft.razorpayOrderId), NullIfEmpty(draft.razorpayPaymentId),
        now, now)
  }

  /** `mapRowToOrder`: the row as an order; empty gateway ids read back as absent. */
  function MapRowToOrder(row: Row): (o: Order)
    ensures o.id == row.id && o.createdAt == row.createdAt && o.updatedAt == row.updatedAt
    ensures o.razorpayOrderId == NullIfEmpty(row.razorpayOrderId)
    ensures o.razorpayPaymentId == NullIfEmpty(row.razorpayPaymentId)
  {
    Order(row.id, row.items, row.delivery, row.subtotal, row.tax, row.total,
          row.paymentStatus, row.orderStatus,
          NullIfEmpty(row.razorpayOrderId), NullIfEmpty(row.razorpayPaymentId),
          row.createdAt, row.updatedAt)
  }

  /** The object `createOrder` returns: `{...order, id, createdAt: now, updatedAt: now}`. */
  function WithGeneratedFields(draft: Draft, id: string, now: Instant): (o: Order)
    ensures o.id == id && o.createdAt == now && o.updatedAt == now
    ensures o.items == draft.items && o.delivery == draft.delivery
    ensures o.subtotal == draft.subtotal && o.tax == draft.tax && o.total == draft.total
    ensures o.paymentStatus == draft.paymentStatus && o.orderStatus == draft.orderStatus
    ensures o.razorpayOrderId == draft.razorpayOrderId && o.razorpayPaymentId == draft.razorpayPaymentId
  {
    Order(id, draft.items, draft.delivery, draft.subtotal, draft.tax, draft.total,
          draft.paymentStatus, draft.orderStatus, draft.razorpayOrderId, draft.razorpayPaymentId,
          now, now)
  }

  /**
   * Reading back an inserted row gives exactly the object `createOrder`
   * returned, unless a gateway id was the empty string (stored as NULL,
   * read back as absent).
   */
  lemma ReadBackInserted(id: string, draft: Draft, now: Instant)
    ensures MapRowToOrder(InsertedRow(id, draft, now)) == WithGeneratedFields(draft, id, now)
        <==> draft.razorpayOrderId != Some("") && draft.razorpayPaymentId != Some("")
  {
    var o := MapRowToOrder(InsertedRow(id, draft, now));
    if draft.razorpayOrderId == Some("") {
      assert o.razorpayOrderId == None;
    }
    if draft.razorpayPaymentId == Some("") {
      assert o.razorpayPaymentId == None;
    }
  }

  // ---------------------------------------------------------------------------
  // Price arithmetic

  function LineAmount(item: CartItem): int {
    item.pricePerUnit * item.quantity
  }

  /** `items.reduce((sum, item) => sum + item.pricePerUnit * item.quantity, 0)`. */
  function Subtotal(items: seq<CartItem>): int {
    if items == [] then 0 else Subtotal(items[..|items| - 1]) + LineAmount(items[|items| - 1])
  }

  /**
   * `Math.round(subtotal * 0.05)` in exact arithmetic: the integer nearest to
   * subtotal/20, halves rounded up.
   */
  function RoundedTax(subtotal: int): (t: int)
    ensures 20 * t - 10 <= subtotal < 20 * t + 10
  {
    (subtotal + 10) / 20
  }

  lemma {:induction false} SubtotalAppend(items: seq<CartItem>, more: seq<CartItem>)
    ensures Subtotal(items + more) == Subtotal(items) + Subtotal(more)
    decreases |more|
  {
    if more != [] {
      var all := items + more;
      assert all[..|all| - 1] == items + more[..|more| - 1];
      SubtotalAppend(items, more[..|more| - 1]);
    } else {
      assert items + more == items;
    }
  }

  lemma {:induction false} SubtotalNonNegative(items: seq<CartItem>)
    requires forall i :: 0 <= i < |items| ==> items[i].quantity >= 0 && items[i].pricePerUnit >= 0
    ensures Subtotal(items) >= 0
  {
    if items != [] {
      SubtotalNonNegative(items[..|items| - 1]);
    }
  }
}
