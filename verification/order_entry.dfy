/**
 * The order-entry screen: a search box over the catalog, category pills,
 * a product list with Add / − / + buttons, and a floating cart bar that
 * hands the cart over to the review screen.
 */
module OrderEntry {
  import opened Wrappers
  import opened Catalog
  import Cart

  /** The ids of the catalog's products. */
  function ProductIds(products: seq<Product>): (r: seq<string>)
    ensures |r| == |products|
    ensures forall i :: 0 <= i < |products| ==> r[i] == products[i].id
  {
    seq(|products|, i requires 0 <= i < |products| => products[i].id)
  }

  class OrderEntryScreen {
    /** The catalog shown by the screen. */
    const products: seq<Product>
    /** The text of the search box (also set by the category pills). */
    var searchQuery: string
    /** The cart being built. */
    var cart: seq<Cart.CartLine>

    /** The cart invariant, plus: every line is for a product of the catalog. */
    ghost predicate Valid()
      reads this
    {
      && Cart.Valid(cart)
      && forall i :: 0 <= i < |cart| ==> cart[i].id in ProductIds(products)
    }

    constructor (products: seq<Product>)
      ensures this.products == products && searchQuery == "" && cart == []
      ensures Valid()
    {
      this.products := products;
      searchQuery := "";
      cart := [];
    }

    /** Typing in the search box, clicking a category pill, or "All" (the empty query). */
    method SetSearchQuery(query: string)
      modifies this
      ensures searchQuery == query && cart == old(cart)
    {
      searchQuery := query;
    }

    /** The products listed under the search box. */
    function FilteredProducts(): (r: seq<Product>)
      reads this
      ensures forall p :: p in r ==> p in products && Matches(p, searchQuery)
      ensures forall p :: p in products && Matches(p, searchQuery) ==> p in r
      ensures searchQuery == "" ==> r == products
    {
      var r := Search(products, searchQuery);
      forall p | p in products && Matches(p, searchQuery) ensures p in r {
        SearchComplete(products, searchQuery, p);
      }
      if searchQuery == "" then SearchEmptyQuery(products); r else r
    }

    /**
     * The Add button: one more of a product already in the cart, else a new
     * quantity-1 line at the end. The cart invariant is kept; a product of
     * the catalog keeps every line a catalog product.
     */
    method AddToCart(p: Product)
      requires Valid()
      modifies this
      ensures cart == Cart.AddToCart(old(cart), p)
      ensures searchQuery == old(searchQuery)
      ensures Cart.Valid(cart)
      ensures p in products ==> Valid()
    {
      Cart.AddToCartValid(cart, p);
      var next := Cart.AddToCart(cart, p);
      if p in products {
        forall i | 0 <= i < |next| ensures next[i].id in ProductIds(products) {
          if p.id in Cart.Ids(cart) {
            var k := Cart.LineOf(cart, p.id);
            Cart.AddToCartExisting(cart, p, k);
          } else {
            Cart.AddToCartNew(cart, p);
            if i == |cart| {
              var j :| 0 <= j < |products| && products[j] == p;
              assert ProductIds(products)[j] == p.id;
            }
          }
        }
      }
      cart := next;
    }

    /** The − and + buttons next to a product in the cart. */
    method UpdateQuantity(id: string, change: int)
      requires Valid()
      modifies this
      ensures cart == Cart.UpdateQuantity(old(cart), id, change)
      ensures searchQuery == old(searchQuery)
      ensures Valid()
    {
      Cart.UpdateQuantityValid(cart, id, change);
      var next := Cart.UpdateQuantity(cart, id, change);
      forall i | 0 <= i < |next| ensures next[i].id in ProductIds(products) {
        UpdateQuantityKeepsLines(cart, id, change, i);
      }
      cart := next;
    }

    /**
     * The floating cart bar appears only when the cart is non-empty; its
     * "Review Order" button passes the cart, unchanged, to the review screen.
     */
    method ReviewOrder() returns (handoff: Option<seq<Cart.CartLine>>)
      requires Valid()
      ensures handoff.Some? <==> |cart| > 0
      ensures handoff.Some? ==> handoff.value == cart
      ensures handoff.Some? ==> Cart.Valid(handoff.value) && Cart.TotalItems(handoff.value) >= 1
    {
      if |cart| > 0 {
        Cart.TotalItemsAtLeastLines(cart);
        handoff := Some(cart);
      } else {
        handoff := None;
      }
    }
  }

  /** Every line `updateQuantity` leaves in the cart was already in it, with the same id. */
  lemma {:induction false} UpdateQuantityKeepsLines(cart: seq<Cart.CartLine>, id: string, change: int, i: nat)
    requires i < |Cart.UpdateQuantity(cart, id, change)|
    ensures exists j :: 0 <= j < |cart| && cart[j].id == Cart.UpdateQuantity(cart, id, change)[i].id
    decreases |cart|
  {
    var r := Cart.UpdateQuantity(cart, id, change);
    var rest := Cart.UpdateQuantity(cart[1..], id, change);
    match Cart.Adjusted(cart[0], id, change)
    case None =>
      assert r == rest;
      UpdateQuantityKeepsLines(cart[1..], id, change, i);
      var j :| 0 <= j < |cart[1..]| && cart[1..][j].id == rest[i].id;
      assert cart[j + 1].id == r[i].id;
    case Some(line) =>
      assert r == [line] + rest;
      if i == 0 {
        assert cart[0].id == r[0].id;
      } else {
        UpdateQuantityKeepsLines(cart[1..], id, change, i - 1);
        var j :| 0 <= j < |cart[1..]| && cart[1..][j].id == rest[i - 1].id;
        assert cart[j + 1].id == r[i].id;
      }
  }
}
