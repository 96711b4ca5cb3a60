/**
 * lib/db.ts: the `orders` and `out_of_stock_items` tables and the operations
 * over them. The tables are fields of a `Store` object; the connection string
 * is the constant `configured`; the clock is the `now` argument; a statement
 * that the database rejects for reasons outside the model (connection loss,
 * a constraint the model does not track) is the `fault` argument.
 */
module OrderStore {
  import opened Wrappers
  import opened Text
  import opened Orders
  import opened OrderIds

  datatype StoreError =
    | NotConfigured              // "Database not configured"
    | DuplicateKey(id: string)   // the insert hit an existing primary key
    | QueryFailed(message: string)

  const NOT_CONFIGURED_TEXT: string := "No database connection string provided"

  /** What the pool does with the `SELECT 1` probe. */
  datatype Probe =
    | ProbeOk
    | ProbeFailed(message: string)     // the query fails: reported, not thrown
    | ConnectFailed(message: string)   // `pool.connect()` itself throws

  datatype ConnectionTest = ConnectionTest(connected: bool, error: Option<string>)

  /** `testConnection`: a report, except when acquiring a client throws. */
  function TestConnection(configured: bool, probe: Probe): (r: Result<ConnectionTest, StoreError>)
    ensures !configured ==> r == Ok(ConnectionTest(false, Some(NOT_CONFIGURED_TEXT)))
    ensures configured ==> (r.Err? <==> probe.ConnectFailed?)
    ensures r.Ok? ==> (r.value.connected <==> configured && probe.ProbeOk?)
    ensures r.Ok? ==> (r.value.error.None? <==> r.value.connected)
  {
    if !configured then Ok(ConnectionTest(false, Some(NOT_CONFIGURED_TEXT)))
    else match probe
      case ProbeOk => Ok(ConnectionTest(true, None))
      case ProbeFailed(m) => Ok(ConnectionTest(false, Some(if m == "" then "Connection failed" else m)))
      case ConnectFailed(m) => Err(QueryFailed(m))
  }

  // ---------------------------------------------------------------------------
  // The daily sequence behind the order id

  /** The rows whose `created_at::date` is `day`. */
  function CreatedOn(rows: map<string, Row>, day: Date): set<string> {
    set id | id in rows && rows[id].createdAt.date == day
  }

  /** `SELECT COUNT(*) … WHERE created_at::date = CURRENT_DATE`. */
  function TodaysCount(rows: map<string, Row>, day: Date): nat {
    |CreatedOn(rows, day)|
  }

  /** The id `createOrder` derives: today's date and today's row count plus one. */
  function NextOrderId(rows: map<string, Row>, day: Date): string {
    FormatOrderId(day, TodaysCount(rows, day) + 1)
  }

  /**
   * Every row's id names its own creation date and a sequence number no
   * larger than that day's row count. Inserting through `createOrder` keeps
   * this; deleting a row can break it.
   */
  ghost predicate WellNumbered(rows: map<string, Row>) {
    forall id {:trigger NumberedIn(rows, id)} :: id in rows ==> NumberedIn(rows, id)
  }

  /** The row stored under `id` is numbered within its own day's count. */
  ghost predicate NumberedIn(rows: map<string, Row>, id: string)
    requires id in rows
  {
    && IsCalendarDate(rows[id].createdAt.date)
    && ParseOrderId(id).Some?
    && ParseOrderId(id).value.0 == rows[id].createdAt.date
    && 1 <= ParseOrderId(id).value.1 <= TodaysCount(rows, rows[id].createdAt.date)
  }

  /** While the ids are well numbered, the next id is free: the insert cannot collide. */
  lemma NextIdIsFresh(rows: map<string, Row>, day: Date)
    requires WellNumbered(rows) && IsCalendarDate(day)
    ensures NextOrderId(rows, day) !in rows
  {
    var n := TodaysCount(rows, day);
    OrderIdRoundTrip(day, n + 1);
    AboveCountIsFree(rows, FormatOrderId(day, n + 1), day, n + 1);
  }

  /** An id whose sequence number exceeds its day's count names no row. */
  lemma AboveCountIsFree(rows: map<string, Row>, id: string, day: Date, num: nat)
    requires WellNumbered(rows)
    requires ParseOrderId(id) == Some((day, num)) && num > TodaysCount(rows, day)
    ensures id !in rows
  {
    NumberedAt(rows, id);
  }

  lemma NumberedAt(rows: map<string, Row>, id: string)
    requires WellNumbered(rows)
    ensures id in rows ==> NumberedIn(rows, id)
  {
  }

  /** A new row adds one to its own day's count and leaves no day's count smaller. */
  lemma InsertCounts(rows: map<string, Row>, id: string, row: Row)
    requires id !in rows
    ensures TodaysCount(rows[id := row], row.createdAt.date) == TodaysCount(rows, row.createdAt.date) + 1
    ensures forall d :: TodaysCount(rows, d) <= TodaysCount(rows[id := row], d)
  {
    var rows' := rows[id := row];
    assert CreatedOn(rows', row.createdAt.date) == CreatedOn(rows, row.createdAt.date) + {id};
    forall d | d != row.createdAt.date
      ensures TodaysCount(rows, d) == TodaysCount(rows', d)
    {
      assert CreatedOn(rows', d) == CreatedOn(rows, d);
    }
  }

  /** A row already numbered stays numbered when another row is added. */
  lemma OldRowStaysNumbered(rows: map<string, Row>, id: string, row: Row, k: string)
    requires id !in rows && k in rows && NumberedIn(rows, k)
    ensures NumberedIn(rows[id := row], k)
  {
    InsertCounts(rows, id, row);
    assert rows[id := row][k] == rows[k];
  }

  /** Inserting a row created on `day` under the next id keeps the ids well numbered. */
  lemma InsertKeepsWellNumbered(rows: map<string, Row>, day: Date, row: Row)
    requires WellNumbered(rows) && IsCalendarDate(day)
    requires row.createdAt.date == day
    ensures WellNumbered(rows[NextOrderId(rows, day) := row])
  {
    var id := NextOrderId(rows, day);
    var rows' := rows[id := row];
    NextIdIsFresh(rows, day);
    OrderIdRoundTrip(day, TodaysCount(rows, day) + 1);
    InsertCounts(rows, id, row);
    assert NumberedIn(rows', id);
    forall k | k in rows'
      ensures NumberedIn(rows', k)
    {
      if k != id {
        OldRowStaysNumbered(rows, id, row, k);
      }
    }
  }

  /**
   * Deleting today's first order of two makes the next id the one still
   * stored: every later `createOrder` that day collides on the primary key,
   * and there is no retry.
   */
  lemma DeleteThenCreateCollides(row1: Row, row2: Row, day: Date)
    requires IsCalendarDate(day)
    requires row1.createdAt.date == day && row2.createdAt.date == day
    requires row1.id == FormatOrderId(day, 1) && row2.id == FormatOrderId(day, 2)
    ensures var rows := map[row1.id := row1, row2.id := row2];
      && WellNumbered(rows)
      && NextOrderId(rows - {row1.id}, day) in rows - {row1.id}
  {
    var id1, id2 := row1.id, row2.id;
    OrderIdRoundTrip(day, 1);
    OrderIdRoundTrip(day, 2);
    TwoRowsCount(row1, row2, day);
    var rows := map[id1 := row1, id2 := row2];
    forall id | id in rows ensures NumberedIn(rows, id) {
    }
  }

  /** Two rows of one day count two; with the first deleted, one. */
  lemma TwoRowsCount(row1: Row, row2: Row, day: Date)
    requires row1.id != row2.id
    requires row1.createdAt.date == day && row2.createdAt.date == day
    ensures var rows := map[row1.id := row1, row2.id := row2];
      && TodaysCount(rows, day) == 2
      && rows - {row1.id} == map[row2.id := row2]
      && TodaysCount(map[row2.id := row2], day) == 1
  {
    var rows := map[row1.id := row1, row2.id := row2];
    assert CreatedOn(rows, day) == {row1.id, row2.id};
    assert CreatedOn(map[row2.id := row2], day) == {row2.id};
  }

  // ---------------------------------------------------------------------------
  // The sparse update: key to column, SET clause, placeholders

  /** `key.replace(/([A-Z])/g, m => "_" + m.toLowerCase())`. */
  function ColumnName(key: string): (col: string)
    ensures NoCapitals(col)
  {
    if key == [] then []
    else (if IsUpper(key[0]) then ['_', LowerChar(key[0])] else [key[0]]) + ColumnName(key[1..])
  }

  lemma {:induction false} ColumnNameAppend(a: string, b: string)
    ensures ColumnName(a + b) == ColumnName(a) + ColumnName(b)
  {
    if a == [] {
      assert a + b == b;
    } else {
      assert (a + b)[1..] == a[1..] + b;
      ColumnNameAppend(a[1..], b);
    }
  }

  /** A key without capitals is its own column name. */
  lemma {:induction false} ColumnNameOfLowerKey(key: string)
    requires NoCapitals(key)
    ensures ColumnName(key) == key
  {
    if key != [] {
      ColumnNameOfLowerKey(key[1..]);
    }
  }

  predicate NoCapitals(s: string) {
    forall i :: 0 <= i < |s| ==> !IsUpper(s[i])
  }

  /** A capital inside a key becomes an underscore and its lower-case letter. */
  lemma OneCapital(a: string, c: char, b: string)
    requires NoCapitals(a) && NoCapitals(b) && IsUpper(c)
    ensures ColumnName(a + [c] + b) == a + ['_', LowerChar(c)] + b
  {
    ColumnNameAppend(a + [c], b);
    ColumnNameAppend(a, [c]);
    ColumnNameOfLowerKey(a);
    ColumnNameOfLowerKey(b);
  }

  lemma StatusLiterals()
    ensures "paymentStatus" == "payment" + ['S'] + "tatus"
    ensures "orderStatus" == "order" + ['S'] + "tatus"
    ensures NoCapitals("payment") && NoCapitals("order") && NoCapitals("tatus")
    ensures "payment" + ['_', LowerChar('S')] + "tatus" == "payment_status"
    ensures "order" + ['_', LowerChar('S')] + "tatus" == "order_status"
  {
    assert LowerChar('S') == 's';
  }

  /** The two status keys are written to the `payment_status` and `order_status` columns. */
  lemma StatusColumns()
    ensures ColumnName("paymentStatus") == "payment_status"
    ensures ColumnName("orderStatus") == "order_status"
  {
    StatusLiterals();
    OneCapital("payment", 'S', "tatus");
    OneCapital("order", 'S', "tatus");
  }

  /** A value bound to a placeholder. */
  datatype Value =
    | ItemsValue(items: seq<CartItem>)
    | DeliveryValue(delivery: Delivery)
    | IntValue(n: int)
    | TextValue(text: string)
    | TimeValue(at: Instant)
    | NullValue

  /** One own property of the `updates` object, in `Object.keys` order. */
  datatype Update = Update(key: string, value: Value)

  predicate Skipped(u: Update) {
    u.key == "id" || u.key == "createdAt"
  }

  /** The updates that become assignments: every key but `id` and `createdAt`, in order. */
  function Assigned(updates: seq<Update>): (r: seq<Update>)
    ensures |r| <= |updates|
    ensures forall i :: 0 <= i < |r| ==> !Skipped(r[i])
  {
    if updates == [] then []
    else if Skipped(updates[|updates| - 1]) then Assigned(updates[..|updates| - 1])
    else Assigned(updates[..|updates| - 1]) + [updates[|updates| - 1]]
  }

  /** One more update either is skipped or joins the chosen ones. */
  lemma AssignedStep(updates: seq<Update>, k: nat)
    requires k < |updates|
    ensures Assigned(updates[..k + 1])
      == if Skipped(updates[k]) then Assigned(updates[..k]) else Assigned(updates[..k]) + [updates[k]]
  {
    assert updates[..k + 1][..k] == updates[..k];
  }

  /** `${col} = $${n}`. */
  function Assignment(column: string, n: nat): string {
    column + " = $" + NatToString(n)
  }

  /** The SET clause: the assignments, then `updated_at`, comma separated. */
  function SetClause(fields: seq<string>): string {
    Join(fields + [Assignment("updated_at", |fields| + 1)], ", ")
  }

  function UpdateQuery(fields: seq<string>): string {
    "UPDATE orders SET " + SetClause(fields) + " WHERE id = $" + NatToString(|fields| + 2) + " RETURNING *"
  }

  lemma {:induction false} JoinSnoc(xs: seq<string>, x: string, sep: string)
    requires xs != []
    ensures Join(xs + [x], sep) == Join(xs, sep) + sep + x
  {
    if |xs| == 1 {
      assert xs + [x] == [xs[0], x];
    } else {
      assert (xs + [x])[1..] == xs[1..] + [x];
      JoinSnoc(xs[1..], x, sep);
    }
  }

  /** Field i is `col = $(i+1)` for the i-th chosen update, whose value is parameter i. */
  predicate NumberedAssignments(chosen: seq<Update>, fields: seq<string>, values: seq<Value>) {
    && |fields| == |chosen| == |values|
    && (forall i :: 0 <= i < |fields| ==> fields[i] == Assignment(ColumnName(chosen[i].key), i + 1))
    && (forall i :: 0 <= i < |values| ==> values[i] == chosen[i].value)
  }

  lemma NumberedSnoc(chosen: seq<Update>, fields: seq<string>, values: seq<Value>, u: Update)
    requires NumberedAssignments(chosen, fields, values)
    ensures NumberedAssignments(chosen + [u], fields + [Assignment(ColumnName(u.key), |fields| + 1)], values + [u.value])
  {
  }

  /**
   * The SET loop of `updateOrder`: each update that is not skipped adds
   * `col = $i` for the next placeholder number i and binds its value there.
   */
  method CollectAssignments(updates: seq<Update>) returns (fields: seq<string>, values: seq<Value>)
    ensures NumberedAssignments(Assigned(updates), fields, values)
  {
    fields, values := [], [];
    var idx := 1;
    var k := 0;
    ghost var chosen: seq<Update> := [];
    while k < |updates|
      invariant 0 <= k <= |updates|
      invariant chosen == Assigned(updates[..k])
      invariant idx == |fields| + 1
      invariant NumberedAssignments(chosen, fields, values)
    {
      AssignedStep(updates, k);
      var u := updates[k];
      if !Skipped(u) {
        var col := ColumnName(u.key);
        NumberedSnoc(chosen, fields, values, u);
        fields := fields + [Assignment(col, idx)];
        values := values + [u.value];
        idx := idx + 1;
        chosen := chosen + [u];
      }
      k := k + 1;
    }
    assert updates[..k] == updates;
  }

  /**
   * The statement text and parameter list `updateOrder` builds: with n
   * chosen keys, field i reads `col_i = $(i+1)` and is bound to the i-th
   * value, `updated_at` is `$(n+1)` bound to `now`, and the id is `$(n+2)`.
   */
  method BuildUpdateStatement(id: string, updates: seq<Update>, now: Instant)
    returns (fields: seq<string>, values: seq<Value>, query: string)
    ensures var chosen := Assigned(updates);
      && |fields| == |chosen|
      && (forall i :: 0 <= i < |fields| ==> fields[i] == Assignment(ColumnName(chosen[i].key), i + 1))
      && |values| == |chosen| + 2
      && (forall i :: 0 <= i < |chosen| ==> values[i] == chosen[i].value)
      && values[|chosen|] == TimeValue(now)
      && values[|chosen| + 1] == TextValue(id)
    ensures query == UpdateQuery(fields)
  {
    fields, values := CollectAssignments(updates);
    var idx := |fields| + 1;
    values := values + [TimeValue(now)];
    var setClause;
    if |fields| > 0 {
      setClause := Join(fields, ", ") + ", " + Assignment("updated_at", idx);
      JoinSnoc(fields, Assignment("updated_at", idx), ", ");
    } else {
      setClause := Assignment("updated_at", idx);
    }
    query := "UPDATE orders SET " + setClause + " WHERE id = $" + NatToString(idx + 1) + " RETURNING *";
    values := values + [TextValue(id)];
  }

  /** Columns that may be chosen (all but the primary key; `updated_at` is always chosen already). */
  predicate AssignableColumn(col: string) {
    col in {"items", "delivery", "subtotal", "tax", "total", "payment_status", "order_status",
            "razorpay_order_id", "razorpay_payment_id", "created_at"}
  }

  /** A value of the column's type; NULL is checked only against a matching row. */
  predicate TypeFits(col: string, v: Value) {
    v.NullValue?
    || (col == "items" && v.ItemsValue?)
    || (col == "delivery" && v.DeliveryValue?)
    || (col in {"subtotal", "tax", "total"} && v.IntValue?)
    || (col in {"payment_status", "order_status", "razorpay_order_id", "razorpay_payment_id"} && v.TextValue?)
    || (col == "created_at" && v.TimeValue?)
  }

  /** The statement is accepted: known columns, each chosen once, values of their types. */
  predicate StatementAccepted(updates: seq<Update>) {
    var chosen := Assigned(updates);
    && (forall i :: 0 <= i < |chosen| ==> AssignableColumn(ColumnName(chosen[i].key)))
    && (forall i :: 0 <= i < |chosen| ==> TypeFits(ColumnName(chosen[i].key), chosen[i].value))
    && (forall i, j :: 0 <= i < j < |chosen| ==> ColumnName(chosen[i].key) != ColumnName(chosen[j].key))
  }

  /** One assignment applied to a row; `None` when NULL meets a NOT NULL column. */
  function SetColumn(row: Row, col: string, v: Value): Option<Row>
    requires AssignableColumn(col) && TypeFits(col, v)
  {
    match v
    case NullValue =>
      if col == "razorpay_order_id" then Some(row.(razorpayOrderId := None))
      else if col == "razorpay_payment_id" then Some(row.(razorpayPaymentId := None))
      else None
    case ItemsValue(items) => Some(row.(items := items))
    case DeliveryValue(d) => Some(row.(delivery := d))
    case IntValue(n) =>
      Some(if col == "subtotal" then row.(subtotal := n) else if col == "tax" then row.(tax := n) else row.(total := n))
    case TextValue(s) =>
      Some(if col == "payment_status" then row.(paymentStatus := s)
        else if col == "order_status" then row.(orderStatus := s)
        else if col == "razorpay_order_id" then row.(razorpayOrderId := Some(s))
        else row.(razorpayPaymentId := Some(s)))
    case TimeValue(t) => Some(row.(createdAt := t))
  }

  /** The assignments applied in order, then `updated_at = now`. */
  function ApplyAssignments(row: Row, us: seq<Update>, now: Instant): (r: Option<Row>)
    requires forall i :: 0 <= i < |us| ==> AssignableColumn(ColumnName(us[i].key))
    requires forall i :: 0 <= i < |us| ==> TypeFits(ColumnName(us[i].key), us[i].value)
    ensures r.Some? ==> r.value.id == row.id && r.value.updatedAt == now
    decreases |us|
  {
    if us == [] then Some(row.(updatedAt := now))
    else
      match SetColumn(row, ColumnName(us[0].key), us[0].value)
      case None => None
      case Some(row') => ApplyAssignments(row', us[1..], now)
  }

  /** The row the accepted statement leaves behind, or `None` when it violates NOT NULL. */
  function ApplyUpdates(row: Row, updates: seq<Update>, now: Instant): Option<Row>
    requires StatementAccepted(updates)
  {
    ApplyAssignments(row, Assigned(updates), now)
  }

  /** What `SELECT col` reads from a row, for the columns an update may set. */
  function ColumnValue(row: Row, col: string): Value
    requires AssignableColumn(col)
  {
    if col == "items" then ItemsValue(row.items)
    else if col == "delivery" then DeliveryValue(row.delivery)
    else if col == "subtotal" then IntValue(row.subtotal)
    else if col == "tax" then IntValue(row.tax)
    else if col == "total" then IntValue(row.total)
    else if col == "payment_status" then TextValue(row.paymentStatus)
    else if col == "order_status" then TextValue(row.orderStatus)
    else if col == "razorpay_order_id" then
      (if row.razorpayOrderId.Some? then TextValue(row.razorpayOrderId.value) else NullValue)
    else if col == "razorpay_payment_id" then
      (if row.razorpayPaymentId.Some? then TextValue(row.razorpayPaymentId.value) else NullValue)
    else TimeValue(row.createdAt)
  }

  /** One assignment sets its own column to the value, and leaves every other column and the id alone. */
  lemma SetColumnEffect(row: Row, col: string, v: Value, c: string)
    requires AssignableColumn(col) && TypeFits(col, v) && AssignableColumn(c)
    ensures SetColumn(row, col, v).Some? ==>
      && SetColumn(row, col, v).value.id == row.id
      && ColumnValue(SetColumn(row, col, v).value, c) == (if c == col then v else ColumnValue(row, c))
  {
  }

  /** A column that no assignment names keeps its value. */
  lemma {:induction false} ApplyKeepsOthers(row: Row, us: seq<Update>, now: Instant, c: string)
    requires forall i :: 0 <= i < |us| ==> AssignableColumn(ColumnName(us[i].key))
    requires forall i :: 0 <= i < |us| ==> TypeFits(ColumnName(us[i].key), us[i].value)
    requires AssignableColumn(c) && forall i :: 0 <= i < |us| ==> ColumnName(us[i].key) != c
    ensures ApplyAssignments(row, us, now).Some? ==> ColumnValue(ApplyAssignments(row, us, now).value, c) == ColumnValue(row, c)
    decreases |us|
  {
    if us != [] {
      var col := ColumnName(us[0].key);
      SetColumnEffect(row, col, us[0].value, c);
      var next := SetColumn(row, col, us[0].value);
      if next.Some? {
        ApplyKeepsOthers(next.value, us[1..], now, c);
      }
    }
  }

  /** The tail of a run of assignments keeps what `ApplySetsColumn` asks of it. */
  lemma TailNames(us: seq<Update>, k: nat)
    requires forall i :: 0 <= i < |us| ==> AssignableColumn(ColumnName(us[i].key))
    requires forall i :: 0 <= i < |us| ==> TypeFits(ColumnName(us[i].key), us[i].value)
    requires k < |us|
    requires forall j :: 0 <= j < |us| && j != k ==> ColumnName(us[j].key) != ColumnName(us[k].key)
    ensures forall i :: 0 <= i < |us| - 1 ==> AssignableColumn(ColumnName(us[1..][i].key))
    ensures forall i :: 0 <= i < |us| - 1 ==> TypeFits(ColumnName(us[1..][i].key), us[1..][i].value)
    ensures k == 0 ==> forall i :: 0 <= i < |us| - 1 ==> ColumnName(us[1..][i].key) != ColumnName(us[k].key)
    ensures k > 0 ==> us[1..][k - 1] == us[k]
    ensures k > 0 ==> forall j :: 0 <= j < |us| - 1 && j != k - 1 ==> ColumnName(us[1..][j].key) != ColumnName(us[k].key)
  {
    forall i | 0 <= i < |us| - 1
      ensures AssignableColumn(ColumnName(us[1..][i].key)) && TypeFits(ColumnName(us[1..][i].key), us[1..][i].value)
      ensures i + 1 != k ==> ColumnName(us[1..][i].key) != ColumnName(us[k].key)
    {
      assert us[1..][i] == us[i + 1];
    }
  }

  /** An assigned column, named by no other assignment, ends up holding its value. */
  lemma {:induction false} ApplySetsColumn(row: Row, us: seq<Update>, now: Instant, k: nat)
    requires forall i :: 0 <= i < |us| ==> AssignableColumn(ColumnName(us[i].key))
    requires forall i :: 0 <= i < |us| ==> TypeFits(ColumnName(us[i].key), us[i].value)
    requires k < |us|
    requires forall j :: 0 <= j < |us| && j != k ==> ColumnName(us[j].key) != ColumnName(us[k].key)
    ensures ApplyAssignments(row, us, now).Some? ==>
      ColumnValue(ApplyAssignments(row, us, now).value, ColumnName(us[k].key)) == us[k].value
    decreases |us|
  {
    var col := ColumnName(us[0].key);
    var c := ColumnName(us[k].key);
    TailNames(us, k);
    SetColumnEffect(row, col, us[0].value, c);
    var next := SetColumn(row, col, us[0].value);
    if next.Some? {
      assert ApplyAssignments(row, us, now) == ApplyAssignments(next.value, us[1..], now);
      if k == 0 {
        ApplyKeepsOthers(next.value, us[1..], now, c);
      } else {
        ApplySetsColumn(next.value, us[1..], now, k - 1);
      }
    }
  }

  /**
   * What an accepted `updateOrder` statement leaves in a column: the value
   * of the update that names it, or the old value when none does; the id
   * stays and `updated_at` is `now`.
   */
  lemma UpdatesEffect(row: Row, updates: seq<Update>, now: Instant, c: string)
    requires StatementAccepted(updates) && AssignableColumn(c)
    ensures var chosen := Assigned(updates);
      ApplyUpdates(row, updates, now).Some? ==>
        && ApplyUpdates(row, updates, now).value.id == row.id
        && ApplyUpdates(row, updates, now).value.updatedAt == now
        && ((forall i :: 0 <= i < |chosen| ==> ColumnName(chosen[i].key) != c) ==>
              ColumnValue(ApplyUpdates(row, updates, now).value, c) == ColumnValue(row, c))
        && (forall k :: 0 <= k < |chosen| && ColumnName(chosen[k].key) == c ==>
              ColumnValue(ApplyUpdates(row, updates, now).value, c) == chosen[k].value)
  {
    var chosen := Assigned(updates);
    if forall i :: 0 <= i < |chosen| ==> ColumnName(chosen[i].key) != c {
      UpdateKeepsColumn(row, updates, now, c);
    }
    forall k | 0 <= k < |chosen| && ColumnName(chosen[k].key) == c
      ensures ApplyUpdates(row, updates, now).Some? ==>
        ColumnValue(ApplyUpdates(row, updates, now).value, c) == chosen[k].value
    {
      UpdateSetsColumn(row, updates, now, k);
    }
  }

  /** A column that no chosen key names keeps its value through an accepted update. */
  lemma UpdateKeepsColumn(row: Row, updates: seq<Update>, now: Instant, c: string)
    requires StatementAccepted(updates) && AssignableColumn(c)
    requires forall i :: 0 <= i < |Assigned(updates)| ==> ColumnName(Assigned(updates)[i].key) != c
    ensures ApplyUpdates(row, updates, now).Some? ==>
      ColumnValue(ApplyUpdates(row, updates, now).value, c) == ColumnValue(row, c)
  {
    ApplyKeepsOthers(row, Assigned(updates), now, c);
  }

  /** The column of the k-th chosen key holds that key's value after an accepted update. */
  lemma UpdateSetsColumn(row: Row, updates: seq<Update>, now: Instant, k: nat)
    requires StatementAccepted(updates) && k < |Assigned(updates)|
    ensures var chosen := Assigned(updates);
      ApplyUpdates(row, updates, now).Some? ==>
        ColumnValue(ApplyUpdates(row, updates, now).value, ColumnName(chosen[k].key)) == chosen[k].value
  {
    var chosen := Assigned(updates);
    forall j | 0 <= j < |chosen| && j != k
      ensures ColumnName(chosen[j].key) != ColumnName(chosen[k].key)
    {
      if j > k {
        assert ColumnName(chosen[k].key) != ColumnName(chosen[j].key);
      }
    }
    ApplySetsColumn(row, chosen, now, k);
  }

  /** A single update of an assignable column with a value of its type is the whole, accepted statement. */
  lemma SingleAccepted(u: Update)
    requires !Skipped(u) && AssignableColumn(ColumnName(u.key)) && TypeFits(ColumnName(u.key), u.value)
    ensures Assigned([u]) == [u] && StatementAccepted([u])
  {
    assert [u][..0] == [];
  }

  /** Applying one assignment: that column, then `updated_at`. */
  lemma SingleUpdate(row: Row, u: Update, now: Instant)
    requires !Skipped(u) && AssignableColumn(ColumnName(u.key)) && TypeFits(ColumnName(u.key), u.value)
    ensures StatementAccepted([u])
    ensures ApplyUpdates(row, [u], now) ==
      match SetColumn(row, ColumnName(u.key), u.value)
      case None => None
      case Some(row') => Some(row'.(updatedAt := now))
  {
    SingleAccepted(u);
    assert [u][1..] == [];
    assert ApplyUpdates(row, [u], now) == ApplyAssignments(row, [u], now);
    match SetColumn(row, ColumnName(u.key), u.value)
    case None =>
    case Some(row') =>
      assert ApplyAssignments(row, [u], now) == ApplyAssignments(row', [], now);
  }

  /** `updateOrder(id, { orderStatus: v })`, as the dashboard sends it: only the status and `updated_at` change. */
  lemma OrderStatusUpdate(row: Row, v: string, now: Instant)
    ensures StatementAccepted([Update("orderStatus", TextValue(v))])
    ensures ApplyUpdates(row, [Update("orderStatus", TextValue(v))], now) == Some(row.(orderStatus := v, updatedAt := now))
  {
    StatusColumns();
    assert "orderStatus" != "id" && "orderStatus" != "createdAt";
    assert "order_status" != "payment_status" by {
      assert "order_status"[0] != "payment_status"[0];
    }
    SingleUpdate(row, Update("orderStatus", TextValue(v)), now);
  }

  /** `updateOrder(id, { paymentStatus: v })`: only the payment status and `updated_at` change. */
  lemma PaymentStatusUpdate(row: Row, v: string, now: Instant)
    ensures StatementAccepted([Update("paymentStatus", TextValue(v))])
    ensures ApplyUpdates(row, [Update("paymentStatus", TextValue(v))], now) == Some(row.(paymentStatus := v, updatedAt := now))
  {
    StatusColumns();
    assert "paymentStatus" != "id" && "paymentStatus" != "createdAt";
    SingleUpdate(row, Update("paymentStatus", TextValue(v)), now);
  }

  // ---------------------------------------------------------------------------
  // Ordering for getAllOrders

  predicate SortedByCreation(s: seq<Order>) {
    forall i, j :: 0 <= i < j < |s| ==> s[i].createdAt.epochMs <= s[j].createdAt.epochMs
  }

  predicate DistinctIds(s: seq<Order>) {
    forall i, j :: 0 <= i < j < |s| ==> s[i].id != s[j].id
  }

  /** `o` placed after every order created no later than it. */
  function InsertByCreation(s: seq<Order>, o: Order): (r: seq<Order>)
    ensures |r| == |s| + 1
    ensures multiset(r) == multiset(s) + multiset{o}
  {
    if s == [] || s[0].createdAt.epochMs > o.createdAt.epochMs then [o] + s
    else
      assert s == [s[0]] + s[1..];
      [s[0]] + InsertByCreation(s[1..], o)
  }

  /** An order no later than every order of a sorted list may go in front of it. */
  lemma SortedCons(h: Order, t: seq<Order>)
    requires SortedByCreation(t)
    requires forall x :: x in t ==> h.createdAt.epochMs <= x.createdAt.epochMs
    ensures SortedByCreation([h] + t)
  {
    var r := [h] + t;
    forall i, j | 0 <= i < j < |r| ensures r[i].createdAt.epochMs <= r[j].createdAt.epochMs {
      assert r[j] == t[j - 1];
      if i == 0 {
        assert r[j] in t;
      } else {
        assert r[i] == t[i - 1];
      }
    }
  }

  /** An order whose id is not in a list of distinct ids may go in front of it. */
  lemma DistinctCons(h: Order, t: seq<Order>)
    requires DistinctIds(t)
    requires forall x :: x in t ==> x.id != h.id
    ensures DistinctIds([h] + t)
  {
    var r := [h] + t;
    forall i, j | 0 <= i < j < |r| ensures r[i].id != r[j].id {
      assert r[j] == t[j - 1];
      if i == 0 {
        assert r[j] in t;
      } else {
        assert r[i] == t[i - 1];
      }
    }
  }

  /** Every member of the insertion result is `o` or a member of `s`. */
  lemma InsertedFrom(s: seq<Order>, o: Order, x: Order)
    requires x in InsertByCreation(s, o)
    ensures x == o || x in s
  {
    assert x in multiset(InsertByCreation(s, o));
  }

  /** Insertion keeps the oldest-first order. */
  lemma {:induction false} InsertKeepsSorted(s: seq<Order>, o: Order)
    requires SortedByCreation(s)
    ensures SortedByCreation(InsertByCreation(s, o))
  {
    if s != [] && s[0].createdAt.epochMs <= o.createdAt.epochMs {
      var rest := InsertByCreation(s[1..], o);
      InsertKeepsSorted(s[1..], o);
      assert SortedByCreation(s[1..]);
      forall x | x in rest ensures s[0].createdAt.epochMs <= x.createdAt.epochMs {
        InsertedFrom(s[1..], o, x);
        if x != o {
          var k :| 0 <= k < |s| - 1 && s[1..][k] == x;
          assert s[k + 1] == x;
        }
      }
      SortedCons(s[0], rest);
    } else {
      forall x | x in s ensures o.createdAt.epochMs <= x.createdAt.epochMs {
        var k :| 0 <= k < |s| && s[k] == x;
        assert s[0].createdAt.epochMs <= s[k].createdAt.epochMs;
      }
      SortedCons(o, s);
    }
  }

  /** Inserting an order whose id is new keeps the ids distinct. */
  lemma {:induction false} InsertKeepsDistinct(s: seq<Order>, o: Order)
    requires DistinctIds(s)
    requires forall x :: x in s ==> x.id != o.id
    ensures DistinctIds(InsertByCreation(s, o))
  {
    if s != [] && s[0].createdAt.epochMs <= o.createdAt.epochMs {
      var rest := InsertByCreation(s[1..], o);
      assert DistinctIds(s[1..]);
      forall x | x in s[1..] ensures x.id != o.id {
        assert x in s;
      }
      InsertKeepsDistinct(s[1..], o);
      forall x | x in rest ensures x.id != s[0].id {
        InsertedFrom(s[1..], o, x);
        if x != o {
          var k :| 0 <= k < |s| - 1 && s[1..][k] == x;
          assert s[k + 1] == x;
        }
      }
      DistinctCons(s[0], rest);
    } else {
      DistinctCons(o, s);
    }
  }

  // ---------------------------------------------------------------------------
  // The store

  class Store {
    /** Whether NEON_DATABASE_URL or DATABASE_URL is set. */
    const configured: bool
    /** The `orders` table by primary key. */
    var rows: map<string, Row>
    /** The `out_of_stock_items` table: the product ids marked unavailable. */
    var outOfStock: set<int>

    /** Each row sits under its own id. */
    ghost predicate Valid()
      reads this
    {
      forall id :: id in rows ==> rows[id].id == id
    }

    constructor (configured: bool)
      ensures Valid()
      ensures this.configured == configured && rows == map[] && outOfStock == {}
    {
      this.configured := configured;
      rows := map[];
      outOfStock := {};
    }

    /**
     * `createOrder`: inside one transaction, count today's rows, derive the
     * id, insert, commit. A failed statement before the commit rolls back;
     * a failure of the read-back after the commit still throws, though the row
     * stays. There is no retry on a duplicate id.
     */
    method CreateOrder(draft: Draft, now: Instant, fault: Fault) returns (r: Result<Order, StoreError>)
      requires Valid()
      modifies this
      ensures Valid() && outOfStock == old(outOfStock)
      ensures !configured ==> r == Err(NotConfigured) && rows == old(rows)
      ensures configured ==>
        var id := NextOrderId(old(rows), now.date);
        && (id in old(rows) ==> r == Err(DuplicateKey(id)) && rows == old(rows))
        && (id !in old(rows) && fault.BeforeCommit? ==> r == Err(QueryFailed(fault.message)) && rows == old(rows))
        && (id !in old(rows) && fault.AfterCommit? ==>
              r == Err(QueryFailed(fault.message)) && rows == old(rows)[id := InsertedRow(id, draft, now)])
        && (id !in old(rows) && fault.NoFault? ==>
              r == Ok(WithGeneratedFields(draft, id, now)) && rows == old(rows)[id := InsertedRow(id, draft, now)])
    {
      if !configured {
        return Err(NotConfigured);
      }
      var snapshot := rows;                                  // BEGIN
      var num := TodaysCount(rows, now.date) + 1;
      var id := FormatOrderId(now.date, num);
      if id in rows {
        rows := snapshot;                                    // ROLLBACK
        return Err(DuplicateKey(id));
      }
      if fault.BeforeCommit? {
        rows := snapshot;                                    // ROLLBACK
        return Err(QueryFailed(fault.message));
      }
      rows := rows[id := InsertedRow(id, draft, now)];       // INSERT; COMMIT
      if fault.AfterCommit? {
        return Err(QueryFailed(fault.message));              // ROLLBACK is a no-op now
      }
      r := Ok(WithGeneratedFields(draft, id, now));
    }

    /**
     * `getOrderById`: trim, then an exact match, then a case-insensitive
     * match (any one of the matching rows), else null. Throws when no
     * connection string is set.
     */
    method GetOrderById(id: string, fault: Option<string>) returns (r: Result<Option<Order>, StoreError>)
      ensures !configured ==> r == Err(NotConfigured)
      ensures configured && fault.Some? ==> r == Err(QueryFailed(fault.value))
      ensures configured && fault.None? ==> r.Ok?
      ensures r.Ok? && Trim(id) in rows ==> r.value == Some(MapRowToOrder(rows[Trim(id)]))
      ensures r.Ok? && Trim(id) !in rows ==>
        (r.value.None? <==> forall k :: k in rows ==> Lower(k) != Lower(Trim(id)))
      ensures r.Ok? && r.value.Some? ==>
        exists k :: k in rows && Lower(k) == Lower(Trim(id)) && r.value.value == MapRowToOrder(rows[k])
    {
      if !configured {
        return Err(NotConfigured);
      }
      if fault.Some? {
        return Err(QueryFailed(fault.value));
      }
      var normalized := Trim(id);
      if normalized in rows {
        return Ok(Some(MapRowToOrder(rows[normalized])));
      }
      if k :| k in rows && Lower(k) == Lower(normalized) {
        return Ok(Some(MapRowToOrder(rows[k])));
      }
      return Ok(None);
    }

    /** `getOrderByRazorpayOrderId`: any row whose gateway order id equals the argument, else null. */
    method GetOrderByRazorpayOrderId(gatewayOrderId: string, fault: Option<string>)
      returns (r: Result<Option<Order>, StoreError>)
      ensures fault.Some? <==> r.Err?
      ensures r.Ok? ==> (r.value.None? <==> forall k :: k in rows ==> rows[k].razorpayOrderId != Some(gatewayOrderId))
      ensures r.Ok? && r.value.Some? ==>
        exists k :: k in rows && rows[k].razorpayOrderId == Some(gatewayOrderId) && r.value.value == MapRowToOrder(rows[k])
    {
      if fault.Some? {
        return Err(QueryFailed(fault.value));
      }
      if k :| k in rows && rows[k].razorpayOrderId == Some(gatewayOrderId) {
        return Ok(Some(MapRowToOrder(rows[k])));
      }
      return Ok(None);
    }

    /** `getAllOrders`: every row once, oldest first. */
    method GetAllOrders(fault: Option<string>) returns (r: Result<seq<Order>, StoreError>)
      requires Valid()
      ensures fault.Some? <==> r.Err?
      ensures r.Ok? ==> |r.value| == |rows.Keys| && SortedByCreation(r.value) && DistinctIds(r.value)
      ensures r.Ok? ==> forall o :: o in r.value ==> o.id in rows && o == MapRowToOrder(rows[o.id])
    {
      if fault.Some? {
        return Err(QueryFailed(fault.value));
      }
      var remaining := rows.Keys;
      var acc: seq<Order> := [];
      while remaining != {}
        invariant remaining <= rows.Keys
        invariant |acc| + |remaining| == |rows.Keys|
        invariant SortedByCreation(acc) && DistinctIds(acc)
        invariant forall o :: o in acc ==> o.id in rows && o.id !in remaining && o == MapRowToOrder(rows[o.id])
        decreases remaining
      {
        var k :| k in remaining;
        var o := MapRowToOrder(rows[k]);
        InsertKeepsDistinct(acc, o);
        InsertKeepsSorted(acc, o);
        var acc' := InsertByCreation(acc, o);
        assert forall x :: x in acc' ==> x in multiset(acc) + multiset{o};
        acc := acc';
        remaining := remaining - {k};
      }
      r := Ok(acc);
    }

    /**
     * `updateOrder`: run the built statement. A rejected statement throws;
     * no row with the id gives null; otherwise the updated row is returned.
     */
    method UpdateOrder(id: string, updates: seq<Update>, now: Instant, fault: Option<string>)
      returns (r: Result<Option<Order>, StoreError>)
      requires Valid()
      modifies this
      ensures Valid() && outOfStock == old(outOfStock)
      ensures r.Err? || !StatementAccepted(updates) || id !in old(rows) ==> rows == old(rows)
      ensures fault.Some? || !StatementAccepted(updates) ==> r.Err?
      ensures fault.None? && StatementAccepted(updates) && id !in old(rows) ==> r == Ok(None)
      ensures fault.None? && StatementAccepted(updates) && id in old(rows) ==>
        match ApplyUpdates(old(rows)[id], updates, now)
        case None => r.Err? && rows == old(rows)
        case Some(row) => r == Ok(Some(MapRowToOrder(row))) && rows == old(rows)[id := row]
    {
      var fields, values, query := BuildUpdateStatement(id, updates, now);
      if fault.Some? {
        return Err(QueryFailed(fault.value));
      }
      if !StatementAccepted(updates) {
        return Err(QueryFailed("statement rejected"));
      }
      if id !in rows {
        return Ok(None);
      }
      var updated := ApplyUpdates(rows[id], updates, now);
      if updated.None? {
        return Err(QueryFailed("null value violates not-null constraint"));
      }
      rows := rows[id := updated.value];
      r := Ok(Some(MapRowToOrder(updated.value)));
    }

    /** `deleteOrder`: remove the row; report whether one was there. */
    method DeleteOrder(id: string, fault: Option<string>) returns (r: Result<bool, StoreError>)
      requires Valid()
      modifies this
      ensures Valid() && outOfStock == old(outOfStock)
      ensures fault.Some? ==> r == Err(QueryFailed(fault.value)) && rows == old(rows)
      ensures fault.None? ==> r == Ok(id in old(rows)) && rows == old(rows) - {id}
    {
      if fault.Some? {
        return Err(QueryFailed(fault.value));
      }
      r := Ok(id in rows);
      rows := rows - {id};
    }

    /**
     * `setOutOfStock`: false without a connection string; a failure of
     * `ensureOutOfStockTable` or `pool.connect`, which sit outside the
     * try, rejects the call; a failing statement is caught and gives false.
     * Otherwise the id is marked (upsert) or unmarked (delete).
     */
    method SetOutOfStock(productId: int, flag: bool, fault: StockFault) returns (r: Result<bool, StoreError>)
      modifies this
      ensures rows == old(rows)
      ensures !configured ==> r == Ok(false)
      ensures configured && fault.SetupFailed? ==> r == Err(QueryFailed(fault.message))
      ensures configured && fault.StatementFailed? ==> r == Ok(false)
      ensures r == Ok(true) <==> configured && fault.StockOk?
      ensures r != Ok(true) ==> outOfStock == old(outOfStock)
      ensures r == Ok(true) && flag ==> outOfStock == old(outOfStock) + {productId}
      ensures r == Ok(true) && !flag ==> outOfStock == old(outOfStock) - {productId}
    {
      if !configured {
        return Ok(false);
      }
      if fault.SetupFailed? {
        return Err(QueryFailed(fault.message));
      }
      if fault.StatementFailed? {
        return Ok(false);
      }
      if flag {
        outOfStock := outOfStock + {productId};
      } else {
        outOfStock := outOfStock - {productId};
      }
      r := Ok(true);
    }

    /**
     * `getOutOfStockItems`: the marked ids; empty without a connection
     * string or when the query fails; a failing table set-up or connect
     * rejects the call.
     */
    method GetOutOfStockItems(fault: StockFault) returns (r: Result<set<int>, StoreError>)
      ensures !configured ==> r == Ok({})
      ensures configured && fault.SetupFailed? ==> r == Err(QueryFailed(fault.message))
      ensures configured && fault.StatementFailed? ==> r == Ok({})
      ensures configured && fault.StockOk? ==> r == Ok(outOfStock)
    {
      if !configured {
        return Ok({});
      }
      if fault.SetupFailed? {
        return Err(QueryFailed(fault.message));
      }
      if fault.StatementFailed? {
        return Ok({});
      }
      r := Ok(outOfStock);
    }
  }

  /** Where a failure in the out-of-stock calls happens, if one does. */
  datatype StockFault =
    | StockOk
    | SetupFailed(message: string)       // ensureOutOfStockTable or pool.connect, outside the try
    | StatementFailed(message: string)   // the INSERT, DELETE or SELECT, inside the try

  /** Where a failure inside `createOrder`'s transaction happens, if one does. */
  datatype Fault =
    | NoFault
    | BeforeCommit(message: string)   // BEGIN, the count or the insert fails
    | AfterCommit(message: string)    // the read-back after COMMIT fails
}
