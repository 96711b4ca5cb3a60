/**
 * lib/cart.ts: the shopping cart kept in the browser's `localStorage` under
 * the key "cart". In the source file `export function removeFromCart` sits
 * inside the body of `addToCart` (its closing brace comes after it), and an
 * `export` inside a function body is a syntax error, so the file does not
 * compile as written. Here `addToCart` ends with its `return cart` and the
 * two are separate operations, as the rest of the application uses them.
 */
module Cart {
  import opened Wrappers
  import opened Text
  import opened Orders

  /**
   * What `localStorage.getItem("cart")` and `JSON.parse` give: nothing (or
   * an empty string), text that is not JSON, JSON that is not an array, or
   * an array of cart lines.
   */
  datatype Stored = Absent | Unparsable | NotAnArray | CartArray(items: seq<CartItem>)

  /** `loadCart`: the stored array, and `[]` in every other case. */
  function LoadCart(browser: bool, stored: Stored): (r: seq<CartItem>)
    ensures !browser || !stored.CartArray? ==> r == []
    ensures browser && stored.CartArray? ==> r == stored.items
  {
    if !browser then []
    else match stored
      case CartArray(items) => items
      case _ => []
  }

  /** Two lines are the same cart line when cake and weight agree. */
  predicate SameLine(entry: CartItem, cakeId: int, weight: string) {
    entry.cakeId == cakeId && entry.weight == weight
  }

  /** No two entries share a cake and weight. */
  predicate UniqueLines(cart: seq<CartItem>) {
    forall i, j :: 0 <= i < j < |cart| ==> !SameLine(cart[j], cart[i].cakeId, cart[i].weight)
  }

  /** The index `findIndex` reports: the first entry of that line, or -1. */
  function FirstMatch(cart: seq<CartItem>, cakeId: int, weight: string): (r: int)
    ensures -1 <= r < |cart|
    ensures r >= 0 ==> SameLine(cart[r], cakeId, weight) && forall i :: 0 <= i < r ==> !SameLine(cart[i], cakeId, weight)
    ensures r == -1 <==> forall i :: 0 <= i < |cart| ==> !SameLine(cart[i], cakeId, weight)
    decreases |cart|
  {
    if cart == [] then -1
    else if SameLine(cart[0], cakeId, weight) then 0
    else
      var r := FirstMatch(cart[1..], cakeId, weight);
      if r == -1 then -1 else r + 1
  }

  /** `cart.findIndex(entry => entry.cakeId === cakeId && entry.weight === weight)`. */
  method FindIndex(cart: seq<CartItem>, cakeId: int, weight: string) returns (r: int)
    ensures -1 <= r < |cart|
    ensures r >= 0 ==> SameLine(cart[r], cakeId, weight) && forall i :: 0 <= i < r ==> !SameLine(cart[i], cakeId, weight)
    ensures r == -1 ==> forall i :: 0 <= i < |cart| ==> !SameLine(cart[i], cakeId, weight)
    ensures r == FirstMatch(cart, cakeId, weight)
  {
    var i := 0;
    while i < |cart|
      invariant 0 <= i <= |cart|
      invariant forall k :: 0 <= k < i ==> !SameLine(cart[k], cakeId, weight)
    {
      if SameLine(cart[i], cakeId, weight) {
        return i;
      }
      i := i + 1;
    }
    return -1;
  }

  /** The entry after adding `item` to it: quantities summed, the new message unless it is absent. */
  function Merged(entry: CartItem, item: CartItem): CartItem {
    entry.(quantity := entry.quantity + item.quantity,
           customMessage := if item.customMessage.Some? then item.customMessage else entry.customMessage)
  }

  /** The cart `addToCart` saves: merged into the existing line, or appended. */
  function Added(cart: seq<CartItem>, item: CartItem): seq<CartItem> {
    var i := FirstMatch(cart, item.cakeId, item.weight);
    if i >= 0 then cart[i := Merged(cart[i], item)] else cart + [item]
  }

  /** Adding to an existing line keeps the length, sums the quantities and touches no other entry. */
  lemma AddExisting(cart: seq<CartItem>, item: CartItem, i: int)
    requires 0 <= i < |cart| && SameLine(cart[i], item.cakeId, item.weight)
    requires UniqueLines(cart)
    ensures var r := Added(cart, item);
      && |r| == |cart|
      && r[i].quantity == cart[i].quantity + item.quantity
      && r[i].customMessage == (if item.customMessage.Some? then item.customMessage else cart[i].customMessage)
      && r[i].(quantity := cart[i].quantity, customMessage := cart[i].customMessage) == cart[i]
      && forall j :: 0 <= j < |cart| && j != i ==> r[j] == cart[j]
  {
    var k := FirstMatch(cart, item.cakeId, item.weight);
    assert 0 <= k <= i;
    var first, entry := cart[k], cart[i];
    assert k != i ==> !SameLine(entry, first.cakeId, first.weight);
  }

  /** Adding a new line appends it at the end. */
  lemma AddNew(cart: seq<CartItem>, item: CartItem)
    requires forall j :: 0 <= j < |cart| ==> !SameLine(cart[j], item.cakeId, item.weight)
    ensures Added(cart, item) == cart + [item]
  {
  }

  /** `addToCart` never creates a second entry for a line. */
  lemma AddKeepsUnique(cart: seq<CartItem>, item: CartItem)
    requires UniqueLines(cart)
    ensures UniqueLines(Added(cart, item))
  {
    var i := FirstMatch(cart, item.cakeId, item.weight);
    var r := Added(cart, item);
    if i >= 0 {
      forall a, b | 0 <= a < b < |r|
        ensures !SameLine(r[b], r[a].cakeId, r[a].weight)
      {
        assert SameLine(r[a], cart[a].cakeId, cart[a].weight);
        assert SameLine(r[b], cart[b].cakeId, cart[b].weight);
      }
    } else {
      forall a, b | 0 <= a < b < |r|
        ensures !SameLine(r[b], r[a].cakeId, r[a].weight)
      {
        if b == |cart| {
          assert !SameLine(cart[a], item.cakeId, item.weight);
        }
      }
    }
  }

  /** `${item.cakeId}-${item.weight}`: the key the cart pages and `removeFromCart` use. */
  function CartKey(item: CartItem): string {
    IntToString(item.cakeId) + "-" + item.weight
  }

  /** `cart.filter(item => key(item) !== key)`. */
  function RemoveByKey(cart: seq<CartItem>, key: string): (r: seq<CartItem>)
    ensures |r| <= |cart|
  {
    if cart == [] then []
    else if CartKey(cart[0]) != key then [cart[0]] + RemoveByKey(cart[1..], key)
    else RemoveByKey(cart[1..], key)
  }

  /** Removal keeps exactly the entries with a different key. */
  lemma {:induction false} RemoveByKeyMembers(cart: seq<CartItem>, key: string, x: CartItem)
    ensures x in RemoveByKey(cart, key) <==> x in cart && CartKey(x) != key
  {
    if cart != [] {
      RemoveByKeyMembers(cart[1..], key, x);
      assert cart == [cart[0]] + cart[1..];
    }
  }

  /** Removal works entry by entry, so the kept entries stay in their order. */
  lemma {:induction false} RemoveByKeyAppend(a: seq<CartItem>, b: seq<CartItem>, key: string)
    ensures RemoveByKey(a + b, key) == RemoveByKey(a, key) + RemoveByKey(b, key)
  {
    if a == [] {
      assert a + b == b;
    } else {
      assert (a + b)[1..] == a[1..] + b;
      RemoveByKeyAppend(a[1..], b, key);
    }
  }

  /** Replacing an entry by another with the same key does not change what removal keeps. */
  lemma {:induction false} RemoveReplaced(cart: seq<CartItem>, i: int, v: CartItem, key: string)
    requires 0 <= i < |cart| && CartKey(cart[i]) == key && CartKey(v) == key
    ensures RemoveByKey(cart[i := v], key) == RemoveByKey(cart, key)
  {
    if i > 0 {
      assert cart[i := v][1..] == cart[1..][i - 1 := v];
      RemoveReplaced(cart[1..], i - 1, v, key);
    } else {
      assert cart[i := v][1..] == cart[1..];
    }
  }

  /** Removing the key of an item just added gives the cart without that line, as if it had never been added. */
  lemma AddThenRemove(cart: seq<CartItem>, item: CartItem)
    ensures RemoveByKey(Added(cart, item), CartKey(item)) == RemoveByKey(cart, CartKey(item))
  {
    var i := FirstMatch(cart, item.cakeId, item.weight);
    if i >= 0 {
      RemoveReplaced(cart, i, Merged(cart[i], item), CartKey(item));
    } else {
      RemoveByKeyAppend(cart, [item], CartKey(item));
    }
  }

  /** In digits + "-" + rest the first dash sits right after the digits. */
  lemma DashAfterDigits(s: string, w: string)
    requires AllDigits(s)
    ensures '-' in s + "-" + w && IndexOf(s + "-" + w, '-') == |s|
  {
    var t := s + "-" + w;
    assert t[|s|] == '-';
    assert t[..|s|] == s;
  }

  lemma DigitsDashUnique(s1: string, w1: string, s2: string, w2: string)
    requires AllDigits(s1) && AllDigits(s2)
    requires s1 + "-" + w1 == s2 + "-" + w2
    ensures s1 == s2 && w1 == w2
  {
    var t := s1 + "-" + w1;
    DashAfterDigits(s1, w1);
    DashAfterDigits(s2, w2);
    assert s1 == t[..|s1|] == s2;
    assert w1 == t[|s1| + 1..] == w2;
  }

  /** For non-negative cake ids the key names one line, so removing an entry's key removes exactly that line. */
  lemma CartKeyInjective(a: CartItem, b: CartItem)
    requires a.cakeId >= 0 && b.cakeId >= 0
    requires CartKey(a) == CartKey(b)
    ensures SameLine(b, a.cakeId, a.weight)
  {
    DigitsDashUnique(NatToString(a.cakeId), a.weight, NatToString(b.cakeId), b.weight);
    NatToStringInjective(a.cakeId, b.cakeId);
  }

  /**
   * The browser side: whether `window` exists, whether `isBrowser()` holds
   * (`window` and `window.localStorage` both exist), what the storage holds
   * under "cart", and how many "cartUpdated" events have been dispatched.
   */
  class CartStorage {
    const window: bool
    const browser: bool
    var stored: Stored
    var events: nat

    constructor(window: bool, localStorage: bool, stored: Stored)
      ensures this.window == window && this.browser == (window && localStorage)
      ensures this.stored == stored && events == 0
    {
      this.window := window;
      this.browser := window && localStorage;
      this.stored := stored;
      this.events := 0;
    }

    /** `saveCart`: outside the browser nothing happens. */
    method SaveCart(items: seq<CartItem>)
      modifies this
      ensures browser ==> stored == CartArray(items) && events == old(events) + 1
      ensures !browser ==> stored == old(stored) && events == old(events)
    {
      if !browser {
        return;
      }
      stored := CartArray(items);
      events := events + 1;
    }

    /**
     * `addToCart`: returns and saves `Added` of what was loaded. `saveCart`
     * dispatches one event in a browser; a second one follows whenever
     * `window` exists, even without `localStorage`.
     */
    method AddToCart(item: CartItem) returns (cart: seq<CartItem>)
      modifies this
      ensures cart == Added(LoadCart(browser, old(stored)), item)
      ensures browser ==> stored == CartArray(cart)
      ensures !browser ==> stored == old(stored)
      ensures events == old(events) + (if browser then 1 else 0) + (if window then 1 else 0)
    {
      cart := LoadCart(browser, stored);
      var existingIndex := FindIndex(cart, item.cakeId, item.weight);
      if existingIndex >= 0 {
        cart := cart[existingIndex := Merged(cart[existingIndex], item)];
      } else {
        cart := cart + [item];
      }
      SaveCart(cart);
      if window {
        events := events + 1;
      }
    }

    /**
     * `removeFromCart`: saves and returns the loaded cart without the
     * entries under `key`; the events are counted as in `AddToCart`.
     */
    method RemoveFromCart(key: string) returns (next: seq<CartItem>)
      modifies this
      ensures next == RemoveByKey(LoadCart(browser, old(stored)), key)
      ensures browser ==> stored == CartArray(next)
      ensures !browser ==> stored == old(stored)
      ensures events == old(events) + (if browser then 1 else 0) + (if window then 1 else 0)
    {
      var cart := LoadCart(browser, stored);
      next := RemoveByKey(cart, key);
      SaveCart(next);
      if window {
        events := events + 1;
      }
    }
  }
}
