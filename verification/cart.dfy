/**
 * The order cart shared by the order-entry and order-review screens: an
 * ordered list of lines keyed by product id, the transforms the screens'
 * handlers apply to it, and the totals they display.
 */
module Cart {
  import opened Wrappers
  import opened Catalog

  /** A cart line: the product's fields plus the ordered quantity. */
  datatype CartLine = CartLine(id: string, name: string, unit: string, price: int, quantity: int)

  /** `{ ...product, quantity: 1 }`: the line a product enters the cart with. */
  function LineFor(p: Product): CartLine
  {
    CartLine(p.id, p.name, p.unit, p.price, 1)
  }

  /** The product ids of the lines, in cart order. */
  function Ids(cart: seq<CartLine>): (r: seq<string>)
    ensures |r| == |cart|
    ensures forall i :: 0 <= i < |cart| ==> r[i] == cart[i].id
  {
    seq(|cart|, i requires 0 <= i < |cart| => cart[i].id)
  }

  /** No product has two lines. */
  predicate UniqueIds(cart: seq<CartLine>)
  {
    forall i, j :: 0 <= i < j < |cart| ==> cart[i].id != cart[j].id
  }

  /** No line is kept at quantity zero or below. */
  predicate PositiveQuantities(cart: seq<CartLine>)
  {
    forall i :: 0 <= i < |cart| ==> cart[i].quantity >= 1
  }

  /** The cart invariant: one line per product, every quantity at least 1. */
  predicate Valid(cart: seq<CartLine>)
  {
    UniqueIds(cart) && PositiveQuantities(cart)
  }

  /** `cart.find(item => item.id === id)`, as a position: the first line for `id`. */
  function IndexOf(cart: seq<CartLine>, id: string): (k: nat)
    requires id in Ids(cart)
    ensures k < |cart| && cart[k].id == id
    ensures forall j :: 0 <= j < k ==> cart[j].id != id
    decreases |cart|
  {
    if cart[0].id == id then 0
    else
      assert id in Ids(cart[1..]) by {
        var i :| 0 <= i < |cart| && Ids(cart)[i] == id;
        assert Ids(cart[1..])[i - 1] == id;
      }
      1 + IndexOf(cart[1..], id)
  }

  /** The quantity shown next to a product: `cartItem?.quantity || 0`. */
  function QuantityOf(cart: seq<CartLine>, id: string): (q: int)
    ensures id !in Ids(cart) ==> q == 0
    ensures PositiveQuantities(cart) ==> (q > 0 <==> id in Ids(cart))
    ensures UniqueIds(cart) ==> forall k :: 0 <= k < |cart| && cart[k].id == id ==> q == cart[k].quantity
  {
    if id in Ids(cart) then cart[IndexOf(cart, id)].quantity else 0
  }

  /** The `map` of `addToCart`: every line for `id` gets one more unit. */
  function Increment(cart: seq<CartLine>, id: string): (r: seq<CartLine>)
    ensures |r| == |cart|
    ensures forall i :: 0 <= i < |cart| ==>
      r[i] == if cart[i].id == id then cart[i].(quantity := cart[i].quantity + 1) else cart[i]
  {
    seq(|cart|, i requires 0 <= i < |cart| =>
      if cart[i].id == id then cart[i].(quantity := cart[i].quantity + 1) else cart[i])
  }

  /** `addToCart`: one more of a product already in the cart, else a new line at the end. */
  function AddToCart(cart: seq<CartLine>, p: Product): (r: seq<CartLine>)
    ensures p.id in Ids(r)
  {
    if p.id in Ids(cart) then
      var r := Increment(cart, p.id);
      assert r[IndexOf(cart, p.id)].id == p.id;
      r
    else
      var r := cart + [LineFor(p)];
      assert r[|cart|].id == p.id;
      r
  }

  function Max(a: int, b: int): int
  {
    if a >= b then a else b
  }

  /**
   * The callback of `updateQuantity`'s `map`: the line for `id` gets quantity
   * `max(0, quantity + change)`, or `None` (JavaScript's `null`) when that is 0.
   */
  function Adjusted(line: CartLine, id: string, change: int): (r: Option<CartLine>)
    ensures line.id != id ==> r == Some(line)
    ensures line.id == id && line.quantity + change <= 0 ==> r == None
    ensures line.id == id && line.quantity + change > 0 ==>
      r == Some(line.(quantity := line.quantity + change))
  {
    if line.id == id then
      var q := Max(0, line.quantity + change);
      if q == 0 then None else Some(line.(quantity := q))
    else Some(line)
  }

  /** `updateQuantity`: `cart.map(Adjusted).filter(Boolean)`. */
  function UpdateQuantity(cart: seq<CartLine>, id: string, change: int): (r: seq<CartLine>)
    ensures |r| <= |cart|
    decreases |cart|
  {
    if cart == [] then []
    else
      var rest := UpdateQuantity(cart[1..], id, change);
      match Adjusted(cart[0], id, change)
      case None => rest
      case Some(line) => [line] + rest
  }

  /** `removeItem`: `cart.filter(item => item.id !== id)`. */
  function RemoveItem(cart: seq<CartLine>, id: string): (r: seq<CartLine>)
    ensures |r| <= |cart|
    decreases |cart|
  {
    if cart == [] then []
    else if cart[0].id == id then RemoveItem(cart[1..], id)
    else [cart[0]] + RemoveItem(cart[1..], id)
  }

  /** The amount a line contributes: `item.price * item.quantity`. */
  function LineAmount(line: CartLine): int
  {
    line.price * line.quantity
  }

  /** `cart.reduce((total, item) => total + f(item), 0)`. */
  function Sum(cart: seq<CartLine>, f: CartLine -> int): int
    decreases |cart|
  {
    if cart == [] then 0 else f(cart[0]) + Sum(cart[1..], f)
  }

  /** `getTotalAmount` on the entry screen, `getSubtotal` on the review screen. */
  function Subtotal(cart: seq<CartLine>): int
  {
    Sum(cart, LineAmount)
  }

  /** The units a line contributes: `item.quantity`. */
  function Quantity(line: CartLine): int
  {
    line.quantity
  }

  /** `getTotalItems`: the number of units ordered (not the number of lines). */
  function TotalItems(cart: seq<CartLine>): int
  {
    Sum(cart, Quantity)
  }

  // ----- Sums -----

  /** Summing is additive over concatenation. */
  lemma {:induction false} SumAppend(a: seq<CartLine>, b: seq<CartLine>, f: CartLine -> int)
    ensures Sum(a + b, f) == Sum(a, f) + Sum(b, f)
    decreases |a|
  {
    if a == [] {
      assert a + b == b;
    } else {
      assert (a + b)[1..] == a[1..] + b;
      SumAppend(a[1..], b, f);
    }
  }

  /** A sum over a sequence that starts with `line` counts `line` once and then the rest. */
  lemma SumCons(line: CartLine, rest: seq<CartLine>, f: CartLine -> int)
    ensures Sum([line] + rest, f) == f(line) + Sum(rest, f)
  {
    assert ([line] + rest)[1..] == rest;
  }

  /** Replacing the line at `k` changes the sum by the difference of the two lines. */
  lemma SumUpdate(cart: seq<CartLine>, k: nat, line: CartLine, f: CartLine -> int)
    requires k < |cart|
    ensures Sum(cart[k := line], f) == Sum(cart, f) - f(cart[k]) + f(line)
  {
    var pre, post := cart[..k], cart[k + 1..];
    assert cart == pre + ([cart[k]] + post);
    assert cart[k := line] == pre + ([line] + post);
    SumAppend(pre, [cart[k]] + post, f);
    SumAppend(pre, [line] + post, f);
    SumCons(cart[k], post, f);
    SumCons(line, post, f);
  }

  /** Deleting the line at `k` lowers the sum by that line's share. */
  lemma SumRemove(cart: seq<CartLine>, k: nat, f: CartLine -> int)
    requires k < |cart|
    ensures Sum(cart[..k] + cart[k + 1..], f) == Sum(cart, f) - f(cart[k])
  {
    var pre, post := cart[..k], cart[k + 1..];
    assert cart == pre + ([cart[k]] + post);
    SumAppend(pre, [cart[k]] + post, f);
    SumAppend(pre, post, f);
    SumCons(cart[k], post, f);
  }

  /** The arithmetic step of `AddToCartTotals` and `UpdateQuantityTotals`: a price times a changed quantity. */
  lemma Distribute(a: int, b: int, c: int)
    ensures a * (b + c) == a * b + a * c
  {
  }

  /** The empty cart totals to nothing. */
  lemma EmptyCartTotals()
    ensures Subtotal([]) == 0 && TotalItems([]) == 0
  {
  }

  /** Under the invariant every line holds at least one unit, so there are at least as many units as lines. */
  lemma {:induction false} TotalItemsAtLeastLines(cart: seq<CartLine>)
    requires PositiveQuantities(cart)
    ensures TotalItems(cart) >= |cart|
    decreases |cart|
  {
    if cart != [] {
      assert PositiveQuantities(cart[1..]) by {
        forall i | 0 <= i < |cart[1..]| ensures cart[1..][i].quantity >= 1 {
          assert cart[1..][i] == cart[i + 1];
        }
      }
      TotalItemsAtLeastLines(cart[1..]);
    }
  }

  /** With non-negative prices and quantities the subtotal is non-negative. */
  lemma {:induction false} SubtotalNonNegative(cart: seq<CartLine>)
    requires forall i :: 0 <= i < |cart| ==> cart[i].price >= 0 && cart[i].quantity >= 0
    ensures Subtotal(cart) >= 0
    decreases |cart|
  {
    if cart != [] {
      assert cart[0].price * cart[0].quantity >= 0;
      SubtotalNonNegative(cart[1..]);
    }
  }

  // ----- addToCart -----

  /**
   * On a product already in the cart (at line `k`), `addToCart` raises that
   * one line by exactly 1; the length and every other line are unchanged.
   */
  lemma AddToCartExisting(cart: seq<CartLine>, p: Product, k: nat)
    requires UniqueIds(cart) && k < |cart| && cart[k].id == p.id
    ensures AddToCart(cart, p) == cart[k := cart[k].(quantity := cart[k].quantity + 1)]
  {
    assert p.id in Ids(cart) by { assert Ids(cart)[k] == p.id; }
    var r := Increment(cart, p.id);
    var expected := cart[k := cart[k].(quantity := cart[k].quantity + 1)];
    forall i | 0 <= i < |cart| ensures r[i] == expected[i] {
      if i != k {
        assert cart[i].id != cart[k].id;
      }
    }
  }

  /** On a product not in the cart, `addToCart` appends a quantity-1 line after the existing lines. */
  lemma AddToCartNew(cart: seq<CartLine>, p: Product)
    requires p.id !in Ids(cart)
    ensures AddToCart(cart, p) == cart + [LineFor(p)]
    ensures AddToCart(cart, p)[|cart|].quantity == 1
  {
  }

  /** Some line of the cart is for `id`. */
  lemma LineOf(cart: seq<CartLine>, id: string) returns (k: nat)
    requires id in Ids(cart)
    ensures k < |cart| && cart[k].id == id
  {
    var i :| 0 <= i < |Ids(cart)| && Ids(cart)[i] == id;
    k := i;
  }

  /** `addToCart` keeps ids unique and every quantity at least 1. */
  lemma AddToCartValid(cart: seq<CartLine>, p: Product)
    requires Valid(cart)
    ensures Valid(AddToCart(cart, p))
  {
    if p.id in Ids(cart) {
      var k := LineOf(cart, p.id);
      AddToCartExisting(cart, p, k);
    } else {
      var r := AddToCart(cart, p);
      forall i, j | 0 <= i < j < |r| ensures r[i].id != r[j].id {
        if j == |cart| {
          assert Ids(cart)[i] == r[i].id;
        }
      }
    }
  }

  /** `addToCart` adds one unit to the item count and one unit price to the amount. */
  lemma AddToCartTotals(cart: seq<CartLine>, p: Product)
    requires UniqueIds(cart)
    ensures TotalItems(AddToCart(cart, p)) == TotalItems(cart) + 1
    ensures p.id !in Ids(cart) ==> Subtotal(AddToCart(cart, p)) == Subtotal(cart) + p.price
    ensures forall k :: 0 <= k < |cart| && cart[k].id == p.id ==>
      Subtotal(AddToCart(cart, p)) == Subtotal(cart) + cart[k].price
  {
    if p.id in Ids(cart) {
      var k := LineOf(cart, p.id);
      var line := cart[k].(quantity := cart[k].quantity + 1);
      AddToCartExisting(cart, p, k);
      assert Sum(cart[k := line], Quantity) == Sum(cart, Quantity) + 1 by {
        SumUpdate(cart, k, line, Quantity);
      }
      assert Sum(cart[k := line], LineAmount) == Sum(cart, LineAmount) + cart[k].price by {
        SumUpdate(cart, k, line, LineAmount);
        Distribute(cart[k].price, cart[k].quantity, 1);
      }
    } else {
      assert AddToCart(cart, p) == cart + [LineFor(p)];
      assert Sum(cart + [LineFor(p)], Quantity) == Sum(cart, Quantity) + 1 by {
        SumAppend(cart, [LineFor(p)], Quantity);
      }
      assert Sum(cart + [LineFor(p)], LineAmount) == Sum(cart, LineAmount) + p.price by {
        SumAppend(cart, [LineFor(p)], LineAmount);
      }
    }
  }

  // ----- updateQuantity -----

  /** The tail of a cart with unique ids has unique ids and no line for the head's product. */
  lemma TailUnique(cart: seq<CartLine>)
    requires cart != [] && UniqueIds(cart)
    ensures UniqueIds(cart[1..]) && cart[0].id !in Ids(cart[1..])
  {
    var rest := cart[1..];
    forall i | 0 <= i < |rest| ensures Ids(rest)[i] != cart[0].id {
      assert rest[i] == cart[i + 1];
    }
    forall i, j | 0 <= i < j < |rest| ensures rest[i].id != rest[j].id {
      assert rest[i] == cart[i + 1] && rest[j] == cart[j + 1];
    }
  }

  /** No line of the tail is for `id` when no line of the cart is. */
  lemma TailAbsent(cart: seq<CartLine>, id: string)
    requires cart != [] && id !in Ids(cart)
    ensures cart[0].id != id && id !in Ids(cart[1..])
  {
    assert Ids(cart)[0] == cart[0].id;
    forall i | 0 <= i < |cart[1..]| ensures Ids(cart[1..])[i] != id {
      assert Ids(cart)[i + 1] == cart[1..][i].id;
    }
  }

  /** For an id not in the cart, `updateQuantity` is a no-op. */
  lemma {:induction false} UpdateQuantityAbsent(cart: seq<CartLine>, id: string, change: int)
    requires id !in Ids(cart)
    ensures UpdateQuantity(cart, id, change) == cart
    decreases |cart|
  {
    if cart != [] {
      TailAbsent(cart, id);
      UpdateQuantityAbsent(cart[1..], id, change);
      assert [cart[0]] + cart[1..] == cart;
    }
  }

  /** `updateQuantity` on the product of the first line adjusts or drops that line and keeps the rest. */
  lemma UpdateQuantityHead(cart: seq<CartLine>, change: int)
    requires UniqueIds(cart) && cart != []
    ensures
      var q := Max(0, cart[0].quantity + change);
      UpdateQuantity(cart, cart[0].id, change) ==
        if q == 0 then cart[1..] else [cart[0].(quantity := q)] + cart[1..]
  {
    TailUnique(cart);
    UpdateQuantityAbsent(cart[1..], cart[0].id, change);
  }

  /**
   * `updateQuantity(id, change)` for the product of line `k` sets that line
   * to `max(0, q + change)` in place, or deletes it when that is 0; every
   * other line stays, in its order.
   */
  lemma {:induction false} UpdateQuantityAt(cart: seq<CartLine>, k: nat, change: int)
    requires UniqueIds(cart) && k < |cart|
    ensures
      var q := Max(0, cart[k].quantity + change);
      UpdateQuantity(cart, cart[k].id, change) ==
        if q == 0 then cart[..k] + cart[k + 1..] else cart[k := cart[k].(quantity := q)]
    decreases k
  {
    var id := cart[k].id;
    var q := Max(0, cart[k].quantity + change);
    if k == 0 {
      UpdateQuantityHead(cart, change);
      if q == 0 {
        assert cart[..0] + cart[1..] == cart[1..];
      } else {
        assert cart[0 := cart[0].(quantity := q)] == [cart[0].(quantity := q)] + cart[1..];
      }
    } else {
      TailUnique(cart);
      UpdateQuantityAt(cart[1..], k - 1, change);
      UpdateQuantityStep(cart, k, change);
    }
  }

  /** One induction step of `UpdateQuantityAt`: a head line for another product is kept in front. */
  lemma UpdateQuantityStep(cart: seq<CartLine>, k: nat, change: int)
    requires 0 < k < |cart| && cart[0].id != cart[k].id
    requires
      var rest := cart[1..];
      var q := Max(0, rest[k - 1].quantity + change);
      UpdateQuantity(rest, rest[k - 1].id, change) ==
        if q == 0 then rest[..k - 1] + rest[k..] else rest[k - 1 := rest[k - 1].(quantity := q)]
    ensures
      var q := Max(0, cart[k].quantity + change);
      UpdateQuantity(cart, cart[k].id, change) ==
        if q == 0 then cart[..k] + cart[k + 1..] else cart[k := cart[k].(quantity := q)]
  {
    var rest := cart[1..];
    var q := Max(0, cart[k].quantity + change);
    assert rest[k - 1] == cart[k];
    assert UpdateQuantity(cart, cart[k].id, change) == [cart[0]] + UpdateQuantity(rest, cart[k].id, change);
    if q == 0 {
      assert cart[..k] + cart[k + 1..] == [cart[0]] + (rest[..k - 1] + rest[k..]);
    } else {
      assert cart[k := cart[k].(quantity := q)] == [cart[0]] + rest[k - 1 := rest[k - 1].(quantity := q)];
    }
  }

  /** Deleting one line of a valid cart leaves a valid cart. */
  lemma RemoveAtValid(cart: seq<CartLine>, k: nat)
    requires Valid(cart) && k < |cart|
    ensures Valid(cart[..k] + cart[k + 1..])
  {
    var r := cart[..k] + cart[k + 1..];
    forall i | 0 <= i < |r| ensures r[i] == cart[if i < k then i else i + 1] {
    }
  }

  /** `updateQuantity` keeps ids unique and every quantity at least 1. */
  lemma UpdateQuantityValid(cart: seq<CartLine>, id: string, change: int)
    requires Valid(cart)
    ensures Valid(UpdateQuantity(cart, id, change))
  {
    if id in Ids(cart) {
      var k := LineOf(cart, id);
      UpdateQuantityAt(cart, k, change);
      if Max(0, cart[k].quantity + change) == 0 {
        RemoveAtValid(cart, k);
      }
    } else {
      UpdateQuantityAbsent(cart, id, change);
    }
  }

  /** `updateQuantity` moves the totals by the change actually applied to the line. */
  lemma UpdateQuantityTotals(cart: seq<CartLine>, k: nat, change: int)
    requires UniqueIds(cart) && k < |cart|
    ensures
      var q := Max(0, cart[k].quantity + change);
      && TotalItems(UpdateQuantity(cart, cart[k].id, change)) == TotalItems(cart) + (q - cart[k].quantity)
      && Subtotal(UpdateQuantity(cart, cart[k].id, change)) == Subtotal(cart) + cart[k].price * (q - cart[k].quantity)
  {
    UpdateQuantityAt(cart, k, change);
    var q := Max(0, cart[k].quantity + change);
    Distribute(cart[k].price, cart[k].quantity, q - cart[k].quantity);
    if q == 0 {
      SumRemove(cart, k, LineAmount);
      SumRemove(cart, k, Quantity);
    } else {
      var line := cart[k].(quantity := q);
      SumUpdate(cart, k, line, LineAmount);
      SumUpdate(cart, k, line, Quantity);
    }
  }

  /** Taking a line's whole quantity away removes the product from the cart. */
  lemma DecrementByQuantityRemoves(cart: seq<CartLine>, k: nat)
    requires Valid(cart) && k < |cart|
    ensures cart[k].id !in Ids(UpdateQuantity(cart, cart[k].id, -cart[k].quantity))
  {
    UpdateQuantityAt(cart, k, -cart[k].quantity);
    var r := cart[..k] + cart[k + 1..];
    forall i | 0 <= i < |r| ensures Ids(r)[i] != cart[k].id {
      if i < k { assert r[i] == cart[i]; } else { assert r[i] == cart[i + 1]; }
    }
  }

  // ----- removeItem -----

  /** For an id not in the cart, `removeItem` leaves the cart unchanged. */
  lemma {:induction false} RemoveItemAbsent(cart: seq<CartLine>, id: string)
    requires id !in Ids(cart)
    ensures RemoveItem(cart, id) == cart
    decreases |cart|
  {
    if cart != [] {
      TailAbsent(cart, id);
      RemoveItemAbsent(cart[1..], id);
      assert [cart[0]] + cart[1..] == cart;
    }
  }

  /** `removeItem` for the product of line `k` deletes exactly that line and keeps all others in order. */
  lemma {:induction false} RemoveItemAt(cart: seq<CartLine>, k: nat)
    requires UniqueIds(cart) && k < |cart|
    ensures RemoveItem(cart, cart[k].id) == cart[..k] + cart[k + 1..]
    decreases k
  {
    var id := cart[k].id;
    var rest := cart[1..];
    TailUnique(cart);
    if k == 0 {
      RemoveItemAbsent(rest, id);
      assert cart[..0] + cart[1..] == rest;
    } else {
      assert cart[0].id != id;
      assert rest[k - 1] == cart[k];
      RemoveItemAt(rest, k - 1);
      assert cart[..k] + cart[k + 1..] == [cart[0]] + (rest[..k - 1] + rest[k..]);
    }
  }

  /** After `removeItem` no line for the id is left, whatever the cart held. */
  lemma {:induction false} RemoveItemGone(cart: seq<CartLine>, id: string)
    ensures id !in Ids(RemoveItem(cart, id))
    decreases |cart|
  {
    if cart != [] {
      RemoveItemGone(cart[1..], id);
      var rest := RemoveItem(cart[1..], id);
      if cart[0].id != id {
        var r := [cart[0]] + rest;
        forall i | 0 <= i < |r| ensures Ids(r)[i] != id {
          if i > 0 { assert r[i] == rest[i - 1] && Ids(rest)[i - 1] == rest[i - 1].id; }
        }
      }
    }
  }

  /** `removeItem` keeps the cart invariant. */
  lemma RemoveItemValid(cart: seq<CartLine>, id: string)
    requires Valid(cart)
    ensures Valid(RemoveItem(cart, id))
  {
    if id in Ids(cart) {
      var k := LineOf(cart, id);
      RemoveItemAt(cart, k);
      RemoveAtValid(cart, k);
    } else {
      RemoveItemAbsent(cart, id);
    }
  }

  /** `removeItem` lowers the totals by exactly the removed line. */
  lemma RemoveItemTotals(cart: seq<CartLine>, k: nat)
    requires UniqueIds(cart) && k < |cart|
    ensures TotalItems(RemoveItem(cart, cart[k].id)) == TotalItems(cart) - cart[k].quantity
    ensures Subtotal(RemoveItem(cart, cart[k].id)) == Subtotal(cart) - cart[k].price * cart[k].quantity
  {
    RemoveItemAt(cart, k);
    SumRemove(cart, k, LineAmount);
    SumRemove(cart, k, Quantity);
  }

  // ----- scenarios -----

  /**
   * Adding the same product twice to an empty cart gives one line of
   * quantity 2, the same as adding it once and pressing "+" once.
   */
  lemma AddTwiceFromEmpty(p: Product)
    ensures AddToCart(AddToCart([], p), p) == [LineFor(p).(quantity := 2)]
    ensures AddToCart(AddToCart([], p), p) == UpdateQuantity(AddToCart([], p), p.id, 1)
  {
    var once := AddToCart([], p);
    assert once == [LineFor(p)];
    AddToCartExisting(once, p, 0);
    UpdateQuantityAt(once, 0, 1);
  }
}
