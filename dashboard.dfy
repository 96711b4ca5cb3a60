/**
 * app/admin/dashboard/page.tsx: the admin's order list. The filter effect
 * (search, status, date range, newest first), the CSV export, and the
 * status-update path that replaces one order in the list.
 */
module Dashboard {
  import opened Wrappers
  import opened Text
  import opened Orders

  // ---------------------------------------------------------------------------
  // Filtering

  /** `s.filter(p)`. */
  function Keep(s: seq<Order>, p: Order -> bool): (r: seq<Order>)
    ensures |r| <= |s|
    ensures forall i :: 0 <= i < |r| ==> p(r[i])
  {
    if s == [] then []
    else if p(s[0]) then [s[0]] + Keep(s[1..], p)
    else Keep(s[1..], p)
  }

  /** A filter keeps exactly the elements that pass it. */
  lemma {:induction false} KeepMembers(s: seq<Order>, p: Order -> bool, x: Order)
    ensures x in Keep(s, p) <==> x in s && p(x)
  {
    if s != [] {
      KeepMembers(s[1..], p, x);
      assert s == [s[0]] + s[1..];
    }
  }

  /** The search box: the id or the customer name contain the term ignoring case, or the phone contains it as typed. */
  predicate MatchesSearch(o: Order, term: string) {
    Contains(Lower(o.id), Lower(term)) || Contains(Lower(o.delivery.name), Lower(term)) || Contains(o.delivery.phone, term)
  }

  /** One pass of the pipeline: a filter that is on, or the identity when its control is empty. */
  function SearchFilter(term: string): Order -> bool {
    (o: Order) => term == "" || MatchesSearch(o, term)
  }

  function StatusFilter(status: string): Order -> bool {
    (o: Order) => status == "all" || o.orderStatus == status
  }

  /**
   * `dateRange.from`: `None` when the box is empty; otherwise what
   * `new Date(from)` gives. An invalid date compares false, so it hides
   * every order.
   */
  function FromFilter(from: Option<ParsedDate>): Order -> bool {
    (o: Order) => from.None? || (from.value.AtMs? && o.createdAt.epochMs >= from.value.ms)
  }

  /** `dateRange.to`: the parsed date already moved to 23:59:59.999 of its day; inclusive. */
  function ToFilter(toEndOfDay: Option<ParsedDate>): Order -> bool {
    (o: Order) => toEndOfDay.None? || (toEndOfDay.value.AtMs? && o.createdAt.epochMs <= toEndOfDay.value.ms)
  }

  /** What the four filters leave, in the order of `orders`. */
  function Filtered(orders: seq<Order>, term: string, status: string, from: Option<ParsedDate>, toEndOfDay: Option<ParsedDate>): seq<Order> {
    Keep(Keep(Keep(Keep(orders, SearchFilter(term)), StatusFilter(status)), FromFilter(from)), ToFilter(toEndOfDay))
  }

  /** An order is listed exactly when it is in `orders` and passes every filter that is on. */
  lemma FilteredMembers(orders: seq<Order>, term: string, status: string, from: Option<ParsedDate>, toEndOfDay: Option<ParsedDate>, x: Order)
    ensures x in Filtered(orders, term, status, from, toEndOfDay) <==>
      && x in orders
      && (term == "" || MatchesSearch(x, term))
      && (status == "all" || x.orderStatus == status)
      && (from.None? || (from.value.AtMs? && x.createdAt.epochMs >= from.value.ms))
      && (toEndOfDay.None? || (toEndOfDay.value.AtMs? && x.createdAt.epochMs <= toEndOfDay.value.ms))
  {
    var s1 := Keep(orders, SearchFilter(term));
    var s2 := Keep(s1, StatusFilter(status));
    var s3 := Keep(s2, FromFilter(from));
    KeepMembers(orders, SearchFilter(term), x);
    KeepMembers(s1, StatusFilter(status), x);
    KeepMembers(s2, FromFilter(from), x);
    KeepMembers(s3, ToFilter(toEndOfDay), x);
  }

  /** An invalid "from" date empties the list. */
  lemma InvalidFromHidesAll(orders: seq<Order>, term: string, status: string, toEndOfDay: Option<ParsedDate>)
    ensures Filtered(orders, term, status, Some(InvalidDate), toEndOfDay) == []
  {
    var s2 := Keep(Keep(orders, SearchFilter(term)), StatusFilter(status));
    KeepNone(s2, FromFilter(Some(InvalidDate)));
  }

  lemma {:induction false} KeepNone(s: seq<Order>, p: Order -> bool)
    requires forall o :: !p(o)
    ensures Keep(s, p) == []
  {
    if s != [] {
      KeepNone(s[1..], p);
    }
  }

  // ---------------------------------------------------------------------------
  // Newest first

  predicate NewestFirst(s: seq<Order>) {
    forall i, j :: 0 <= i < j < |s| ==> s[i].createdAt.epochMs >= s[j].createdAt.epochMs
  }

  /** Inserts `o` into a newest-first list, before the first order that is not newer than it. */
  function InsertNewest(o: Order, s: seq<Order>): (r: seq<Order>)
    requires NewestFirst(s)
    ensures NewestFirst(r)
    ensures multiset(r) == multiset(s) + multiset{o}
    ensures |r| == |s| + 1 && (r[0] == o || (s != [] && r[0] == s[0]))
  {
    if s == [] || s[0].createdAt.epochMs <= o.createdAt.epochMs then
      NewestCons(o, s);
      [o] + s
    else
      assert s == [s[0]] + s[1..];
      assert NewestFirst(s[1..]);
      var rest := InsertNewest(o, s[1..]);
      NewestCons(s[0], rest);
      [s[0]] + rest
  }

  /** An order at least as new as the head of a newest-first list may go in front of it. */
  lemma NewestCons(h: Order, t: seq<Order>)
    requires NewestFirst(t)
    requires t == [] || h.createdAt.epochMs >= t[0].createdAt.epochMs
    ensures NewestFirst([h] + t)
  {
    var r := [h] + t;
    forall i, j | 0 <= i < j < |r| ensures r[i].createdAt.epochMs >= r[j].createdAt.epochMs {
      assert r[j] == t[j - 1];
      if i == 0 {
        assert t[0].createdAt.epochMs >= t[j - 1].createdAt.epochMs;
      } else {
        assert r[i] == t[i - 1];
      }
    }
  }

  /** `[...filtered].sort((a, b) => b.createdAt - a.createdAt)`: a stable sort, newest first. */
  function SortNewestFirst(s: seq<Order>): (r: seq<Order>)
    ensures NewestFirst(r)
    ensures multiset(r) == multiset(s)
  {
    if s == [] then []
    else
      assert s == [s[0]] + s[1..];
      InsertNewest(s[0], SortNewestFirst(s[1..]))
  }

  /** The list the dashboard shows. */
  function Visible(orders: seq<Order>, term: string, status: string, from: Option<ParsedDate>, toEndOfDay: Option<ParsedDate>): seq<Order> {
    SortNewestFirst(Filtered(orders, term, status, from, toEndOfDay))
  }

  /**
   * The shown list is newest first, holds every matching order as often as
   * the filtered list does, and every order in it is one of `orders`.
   */
  lemma VisibleSound(orders: seq<Order>, term: string, status: string, from: Option<ParsedDate>, toEndOfDay: Option<ParsedDate>, x: Order)
    ensures var v := Visible(orders, term, status, from, toEndOfDay);
      && NewestFirst(v)
      && |v| == |Filtered(orders, term, status, from, toEndOfDay)|
      && (x in v <==> x in Filtered(orders, term, status, from, toEndOfDay))
      && (x in v ==> x in orders)
  {
    var f := Filtered(orders, term, status, from, toEndOfDay);
    var v := Visible(orders, term, status, from, toEndOfDay);
    assert |v| == |multiset(v)| == |multiset(f)| == |f|;
    assert x in v <==> x in multiset(v);
    FilteredMembers(orders, term, status, from, toEndOfDay, x);
  }

  // ---------------------------------------------------------------------------
  // CSV export

  const CSV_HEADERS: seq<string> := ["Order ID", "Customer", "Phone", "Address", "Total", "Payment Status", "Order Status", "Date"]

  /** One row: the eight fields, the total as `₹<total>`, the date as `toLocaleDateString("en-IN")` renders it. */
  function CsvFields(o: Order, formatDate: Instant -> string): (r: seq<string>)
    ensures |r| == 8 && r[0] == o.id && r[1] == o.delivery.name && r[2] == o.delivery.phone && r[3] == o.delivery.address
    ensures r[4] == "\U{20B9}" + IntToString(o.total) && r[5] == o.paymentStatus && r[6] == o.orderStatus
    ensures r[7] == formatDate(o.createdAt)
  {
    [o.id, o.delivery.name, o.delivery.phone, o.delivery.address, "\U{20B9}" + IntToString(o.total),
     o.paymentStatus, o.orderStatus, formatDate(o.createdAt)]
  }

  function CsvLines(orders: seq<Order>, formatDate: Instant -> string): (r: seq<string>)
    ensures |r| == |orders|
    ensures forall i :: 0 <= i < |orders| ==> r[i] == Join(CsvFields(orders[i], formatDate), ",")
  {
    if orders == [] then [] else [Join(CsvFields(orders[0], formatDate), ",")] + CsvLines(orders[1..], formatDate)
  }

  /** `handleExportCSV`'s text: a header line and one line per shown order, fields joined by commas, nothing quoted. */
  function Csv(orders: seq<Order>, formatDate: Instant -> string): string {
    Join([Join(CSV_HEADERS, ",")] + CsvLines(orders, formatDate), "\n")
  }

  predicate FieldsFree(orders: seq<Order>, formatDate: Instant -> string, c: char) {
    forall i, k :: 0 <= i < |orders| && 0 <= k < 8 ==> c !in CsvFields(orders[i], formatDate)[k]
  }

  lemma {:induction false} JoinFree(xs: seq<string>, sep: string, c: char)
    requires c !in sep && forall k :: 0 <= k < |xs| ==> c !in xs[k]
    ensures c !in Join(xs, sep)
  {
    if |xs| > 1 {
      JoinFree(xs[1..], sep, c);
    }
  }

  lemma HeaderFree(c: char)
    requires c == '\n' || c == ','
    ensures forall k :: 0 <= k < 8 ==> c !in CSV_HEADERS[k]
  {
    forall k | 0 <= k < 8 ensures c !in CSV_HEADERS[k] {
      var h := CSV_HEADERS[k];
      assert forall m :: 0 <= m < |h| ==> h[m] != '\n' && h[m] != ',';
    }
  }

  /**
   * When no field holds a line break, the text splits back into the header
   * line and exactly one line per order, in order.
   */
  lemma CsvLineCount(orders: seq<Order>, formatDate: Instant -> string)
    requires FieldsFree(orders, formatDate, '\n')
    ensures var lines := Split(Csv(orders, formatDate), '\n');
      && |lines| == |orders| + 1
      && lines[0] == Join(CSV_HEADERS, ",")
      && forall i :: 0 <= i < |orders| ==> lines[i + 1] == Join(CsvFields(orders[i], formatDate), ",")
  {
    var xs := [Join(CSV_HEADERS, ",")] + CsvLines(orders, formatDate);
    HeaderFree('\n');
    JoinFree(CSV_HEADERS, ",", '\n');
    forall i | 0 <= i < |orders| ensures '\n' !in CsvLines(orders, formatDate)[i] {
      JoinFree(CsvFields(orders[i], formatDate), ",", '\n');
    }
    assert forall k :: 0 <= k < |xs| ==> '\n' !in xs[k] by {
      forall k | 0 <= k < |xs| ensures '\n' !in xs[k] {
        if k > 0 { assert xs[k] == CsvLines(orders, formatDate)[k - 1]; }
      }
    }
    SplitJoin(xs, '\n');
    var lines := Split(Csv(orders, formatDate), '\n');
    assert lines == xs;
    forall i | 0 <= i < |orders| ensures lines[i + 1] == Join(CsvFields(orders[i], formatDate), ",") {
      assert xs[i + 1] == CsvLines(orders, formatDate)[i];
    }
  }

  /** When no field holds a comma, every order line splits back into its eight fields. */
  lemma CsvFieldCount(o: Order, formatDate: Instant -> string)
    requires forall k :: 0 <= k < 8 ==> ',' !in CsvFields(o, formatDate)[k]
    ensures Split(Join(CsvFields(o, formatDate), ","), ',') == CsvFields(o, formatDate)
  {
    SplitJoin(CsvFields(o, formatDate), ',');
  }

  /**
   * Without quoting, an order line splits into eight columns plus one per
   * comma inside its fields, so any comma in the customer's name adds a
   * column.
   */
  lemma CommaInNameShiftsColumns(o: Order, formatDate: Instant -> string)
    ensures |Split(Join(CsvFields(o, formatDate), ","), ',')| == 8 + SumCommas(CsvFields(o, formatDate))
    ensures ',' in o.delivery.name ==> |Split(Join(CsvFields(o, formatDate), ","), ',')| > 8
  {
    var f := CsvFields(o, formatDate);
    JoinCommaCount(f);
    SplitCount(Join(f, ","));
    if ',' in o.delivery.name {
      assert SumCommas(f) == CommaCount(f[0]) + SumCommas(f[1..]);
      assert SumCommas(f[1..]) == CommaCount(f[1]) + SumCommas(f[1..][1..]);
      CommaCountPositive(o.delivery.name);
    }
  }

  /** A string holding a comma counts at least one. */
  lemma {:induction false} CommaCountPositive(s: string)
    requires ',' in s
    ensures CommaCount(s) >= 1
  {
    if s[0] != ',' {
      assert ',' in s[1..] by {
        var k :| 0 <= k < |s| && s[k] == ',';
        assert s[1..][k - 1] == ',';
      }
      CommaCountPositive(s[1..]);
    }
  }

  function CommaCount(s: string): nat {
    if s == [] then 0 else (if s[0] == ',' then 1 else 0) + CommaCount(s[1..])
  }

  function SumCommas(xs: seq<string>): nat {
    if xs == [] then 0 else CommaCount(xs[0]) + SumCommas(xs[1..])
  }

  lemma {:induction false} CommaCountAppend(a: string, b: string)
    ensures CommaCount(a + b) == CommaCount(a) + CommaCount(b)
  {
    if a == [] {
      assert a + b == b;
    } else {
      assert (a + b)[1..] == a[1..] + b;
      CommaCountAppend(a[1..], b);
    }
  }

  /** `split(",")` yields one more part than there are commas. */
  lemma {:induction false} SplitCount(s: string)
    ensures |Split(s, ',')| == CommaCount(s) + 1
    decreases |s|
  {
    if ',' in s {
      var i := IndexOf(s, ',');
      assert s == s[..i] + ([s[i]] + s[i + 1..]);
      CommaCountAppend(s[..i], [s[i]] + s[i + 1..]);
      CommaCountAppend([s[i]], s[i + 1..]);
      NoCommas(s[..i]);
      SplitCount(s[i + 1..]);
    } else {
      NoCommas(s);
    }
  }

  lemma {:induction false} NoCommas(s: string)
    requires ',' !in s
    ensures CommaCount(s) == 0
  {
    if s != [] {
      NoCommas(s[1..]);
    }
  }

  /** Joining n parts with commas writes n - 1 commas besides those inside the parts. */
  lemma {:induction false} JoinCommaCount(xs: seq<string>)
    requires |xs| >= 1
    ensures CommaCount(Join(xs, ",")) == |xs| - 1 + SumCommas(xs)
  {
    if |xs| > 1 {
      JoinCommaCount(xs[1..]);
      CommaCountAppend(xs[0] + ",", Join(xs[1..], ","));
      CommaCountAppend(xs[0], ",");
    } else {
      assert SumCommas(xs) == CommaCount(xs[0]) + SumCommas(xs[1..]);
    }
  }

  // ---------------------------------------------------------------------------
  // Status updates

  /** `onUpdate`: `orders.map(o => o.id === updated.id ? updated : o)`. */
  function ReplaceById(orders: seq<Order>, updated: Order): (r: seq<Order>)
    ensures |r| == |orders|
    ensures forall i :: 0 <= i < |orders| ==> r[i] == if orders[i].id == updated.id then updated else orders[i]
  {
    if orders == [] then [] else [if orders[0].id == updated.id then updated else orders[0]] + ReplaceById(orders[1..], updated)
  }

  /** Applying the same update twice is applying it once. */
  lemma ReplaceIdempotent(orders: seq<Order>, updated: Order)
    ensures ReplaceById(ReplaceById(orders, updated), updated) == ReplaceById(orders, updated)
  {
  }

  /** The body of the PUT `handleStatusChange` sends: none when the selection equals the current status. */
  function StatusRequest(selected: string, current: string): (r: Option<string>)
    ensures r.None? <==> selected == current
    ensures r.Some? ==> r.value == selected
  {
    if selected == current then None else Some(selected)
  }

  /** The list after the PUT's response: replaced only on a successful response. */
  function AfterStatusResponse(orders: seq<Order>, responseOk: bool, updated: Order): (r: seq<Order>)
    ensures !responseOk ==> r == orders
    ensures responseOk ==> r == ReplaceById(orders, updated)
  {
    if responseOk then ReplaceById(orders, updated) else orders
  }
}
