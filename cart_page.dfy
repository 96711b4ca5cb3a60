/**
 * app/cart/page.tsx: the cart page's state updates (`handleUpdateQuantity`,
 * `handleRemove`, which is `Cart.RemoveByKey`) and the totals it shows.
 */
module CartPage {
  import opened Orders
  import opened Cart

  /** `prev.map(item => key(item) === id ? { ...item, quantity } : item)`. */
  function SetQuantity(cart: seq<CartItem>, key: string, quantity: int): (r: seq<CartItem>)
    ensures |r| == |cart|
    ensures forall i :: 0 <= i < |cart| ==>
      r[i] == if CartKey(cart[i]) == key then cart[i].(quantity := quantity) else cart[i]
  {
    if cart == [] then []
    else [if CartKey(cart[0]) == key then cart[0].(quantity := quantity) else cart[0]] + SetQuantity(cart[1..], key, quantity)
  }

  /** `.filter(item => item.quantity > 0)`. */
  function Positive(cart: seq<CartItem>): (r: seq<CartItem>)
    ensures |r| <= |cart|
    ensures forall i :: 0 <= i < |r| ==> r[i].quantity > 0
    ensures forall x :: x in r <==> x in cart && x.quantity > 0
  {
    if cart == [] then []
    else
      assert cart == [cart[0]] + cart[1..];
      if cart[0].quantity > 0 then [cart[0]] + Positive(cart[1..])
      else Positive(cart[1..])
  }

  /** The filter works entry by entry, so it keeps the order of the cart. */
  lemma {:induction false} PositiveAppend(a: seq<CartItem>, b: seq<CartItem>)
    ensures Positive(a + b) == Positive(a) + Positive(b)
  {
    if a == [] {
      assert a + b == b;
    } else {
      assert (a + b)[1..] == a[1..] + b;
      PositiveAppend(a[1..], b);
    }
  }

  /** `handleUpdateQuantity(id, quantity)`. */
  function UpdateQuantity(cart: seq<CartItem>, key: string, quantity: int): seq<CartItem> {
    Positive(SetQuantity(cart, key, quantity))
  }

  predicate AllPositive(cart: seq<CartItem>) {
    forall i :: 0 <= i < |cart| ==> cart[i].quantity > 0
  }

  lemma {:induction false} PositiveOfPositive(cart: seq<CartItem>)
    requires AllPositive(cart)
    ensures Positive(cart) == cart
  {
    if cart != [] {
      PositiveOfPositive(cart[1..]);
    }
  }

  /**
   * On a cart of positive quantities, a positive quantity keeps every entry
   * in place and changes only the quantity of the entries under that key.
   */
  lemma UpdateKeepsEntries(cart: seq<CartItem>, key: string, quantity: int)
    requires AllPositive(cart) && quantity > 0
    ensures var r := UpdateQuantity(cart, key, quantity);
      && |r| == |cart|
      && forall i :: 0 <= i < |cart| ==>
           r[i].quantity == (if CartKey(cart[i]) == key then quantity else cart[i].quantity)
           && r[i].(quantity := cart[i].quantity) == cart[i]
  {
    PositiveOfPositive(SetQuantity(cart, key, quantity));
  }

  /** On a cart of positive quantities, setting zero (or less) is the same as removing the line. */
  lemma {:induction false} ZeroRemoves(cart: seq<CartItem>, key: string, quantity: int)
    requires AllPositive(cart) && quantity <= 0
    ensures UpdateQuantity(cart, key, quantity) == RemoveByKey(cart, key)
  {
    if cart != [] {
      ZeroRemoves(cart[1..], key, quantity);
      assert SetQuantity(cart, key, quantity)[1..] == SetQuantity(cart[1..], key, quantity);
    }
  }

  /** The totals under the cart: Σ price×quantity, 5% tax rounded, and their sum. */
  function CartTotals(cart: seq<CartItem>): (t: (int, int, int))
    ensures t.0 == Subtotal(cart) && t.2 == t.0 + t.1
    ensures 20 * t.1 - 10 <= t.0 < 20 * t.1 + 10
  {
    var subtotal := Subtotal(cart);
    var tax := RoundedTax(subtotal);
    (subtotal, tax, subtotal + tax)
  }

  /** Removing a line takes exactly its amount off the subtotal. */
  lemma {:induction false} RemoveLowersSubtotal(cart: seq<CartItem>, key: string)
    ensures Subtotal(cart) == Subtotal(RemoveByKey(cart, key)) + Subtotal(KeyedLines(cart, key))
  {
    if cart != [] {
      var x, rest := cart[0], cart[1..];
      RemoveLowersSubtotal(rest, key);
      assert cart == [x] + rest;
      SubtotalCons(x, rest);
      if CartKey(x) != key {
        assert RemoveByKey(cart, key) == [x] + RemoveByKey(rest, key);
        SubtotalCons(x, RemoveByKey(rest, key));
      } else {
        assert KeyedLines(cart, key) == [x] + KeyedLines(rest, key);
        SubtotalCons(x, KeyedLines(rest, key));
      }
    }
  }

  /** A line in front adds its amount to the subtotal. */
  lemma SubtotalCons(x: CartItem, rest: seq<CartItem>)
    ensures Subtotal([x] + rest) == LineAmount(x) + Subtotal(rest)
  {
    SubtotalAppend([x], rest);
    assert Subtotal([x]) == Subtotal([]) + LineAmount(x);
  }

  /** The entries under `key`: what `handleRemove` takes out. */
  function KeyedLines(cart: seq<CartItem>, key: string): (r: seq<CartItem>)
    ensures forall i :: 0 <= i < |r| ==> CartKey(r[i]) == key
  {
    if cart == [] then []
    else if CartKey(cart[0]) == key then [cart[0]] + KeyedLines(cart[1..], key)
    else KeyedLines(cart[1..], key)
  }

  /** `isEmpty`. */
  predicate IsEmpty(cart: seq<CartItem>) {
    |cart| == 0
  }

  /** An empty cart shows zero everywhere. */
  lemma EmptyTotals(cart: seq<CartItem>)
    requires IsEmpty(cart)
    ensures CartTotals(cart) == (0, 0, 0)
  {
  }
}
