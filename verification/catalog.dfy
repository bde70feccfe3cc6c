/**
 * The product catalog of the order-entry screen: the product record, the
 * search box filter and the list of category pills.
 */
module Catalog {
  import opened Text
  import opened Sequences

  /** A catalog entry; prices are whole rupees. */
  datatype Product = Product(id: string, name: string, unit: string, price: int, category: string)

  /** The catalog the order-entry screen is built with. */
  const MockCatalog: seq<Product> := [
    Product("1", "Tea Powder Premium", "500g", 150, "Beverages"),
    Product("2", "Instant Coffee", "200g", 280, "Beverages"),
    Product("3", "Biscuits Assorted", "Pack of 6", 120, "Snacks"),
    Product("4", "Cooking Oil", "1L", 180, "Cooking"),
    Product("5", "Rice Basmati", "5kg", 450, "Staples"),
    Product("6", "Detergent Powder", "1kg", 220, "Home Care"),
    Product("7", "Shampoo", "400ml", 195, "Personal Care"),
    Product("8", "Noodles Instant", "Pack of 12", 240, "Snacks")
  ]

  /** The search predicate: the query occurs, ignoring case, in the name or in the category. */
  predicate Matches(p: Product, query: string)
  {
    ContainsIgnoreCase(p.name, query) || ContainsIgnoreCase(p.category, query)
  }

  /** `products.filter(...)`: the products that match the query, in catalog order. */
  function Search(catalog: seq<Product>, query: string): (r: seq<Product>)
    ensures |r| <= |catalog|
    ensures forall p :: p in r ==> p in catalog && Matches(p, query)
    decreases |catalog|
  {
    if catalog == [] then []
    else (if Matches(catalog[0], query) then [catalog[0]] else []) + Search(catalog[1..], query)
  }

  /** No product that matches is dropped. */
  lemma {:induction false} SearchComplete(catalog: seq<Product>, query: string, p: Product)
    requires p in catalog && Matches(p, query)
    ensures p in Search(catalog, query)
    decreases |catalog|
  {
    if catalog[0] != p {
      SearchComplete(catalog[1..], query, p);
    }
  }

  /** The result keeps the catalog's order: it is a subsequence of the catalog. */
  lemma {:induction false} SearchKeepsOrder(catalog: seq<Product>, query: string)
    ensures IsSubsequence(Search(catalog, query), catalog)
    decreases |catalog|
  {
    if catalog != [] {
      var rest := Search(catalog[1..], query);
      SearchKeepsOrder(catalog[1..], query);
      if Matches(catalog[0], query) {
        assert Search(catalog, query) == [catalog[0]] + rest;
        assert ([catalog[0]] + rest)[1..] == rest;
      } else {
        assert Search(catalog, query) == rest;
        SubsequenceOfTail(rest, catalog);
      }
    }
  }

  /** An empty query (the "All" pill) shows the whole catalog, unchanged and in order. */
  lemma {:induction false} SearchEmptyQuery(catalog: seq<Product>)
    ensures Search(catalog, "") == catalog
    decreases |catalog|
  {
    if catalog != [] {
      assert LowerStr("") == "";
      IncludesEmpty(LowerStr(catalog[0].name));
      SearchEmptyQuery(catalog[1..]);
      assert [catalog[0]] + catalog[1..] == catalog;
    }
  }

  /** Clicking a category pill searches for that category: every product of it is shown. */
  lemma CategoryPillShowsCategory(catalog: seq<Product>, p: Product)
    requires p in catalog
    ensures p in Search(catalog, p.category)
  {
    IncludesSelf(LowerStr(p.category));
    SearchComplete(catalog, p.category, p);
  }

  /** The category of every product, in catalog order. */
  function CategoryList(catalog: seq<Product>): (r: seq<string>)
    ensures |r| == |catalog|
    ensures forall i :: 0 <= i < |catalog| ==> r[i] == catalog[i].category
  {
    seq(|catalog|, i requires 0 <= i < |catalog| => catalog[i].category)
  }

  /** `categories`: each catalog category exactly once, in first-appearance order. */
  function Categories(catalog: seq<Product>): (r: seq<string>)
    ensures forall c :: c in r <==> exists p :: p in catalog && p.category == c
    ensures NoDuplicates(r)
  {
    var all := CategoryList(catalog);
    assert forall c :: c in all <==> exists p :: p in catalog && p.category == c by {
      forall c | c in all ensures exists p :: p in catalog && p.category == c {
        var i :| 0 <= i < |all| && all[i] == c;
        assert catalog[i] in catalog;
      }
      forall c, p | p in catalog && p.category == c ensures c in all {
        var i :| 0 <= i < |catalog| && catalog[i] == p;
        assert all[i] == c;
      }
    }
    DistinctSpec(all);
    Distinct(all)
  }

  /** The category pills of the mock catalog. */
  lemma MockCategories()
    ensures Categories(MockCatalog) ==
      ["Beverages", "Snacks", "Cooking", "Staples", "Home Care", "Personal Care"]
  {
    var all := CategoryList(MockCatalog);
    assert all == ["Beverages", "Beverages", "Snacks", "Cooking", "Staples", "Home Care", "Personal Care", "Snacks"];
    MockCategoriesPrefix(all);
    DistinctStep(all, 7, ["Beverages", "Snacks", "Cooking", "Staples", "Home Care"], "Personal Care");
    DistinctStep(all, 8, ["Beverages", "Snacks", "Cooking", "Staples", "Home Care", "Personal Care"], "Snacks");
    assert all[..8] == all;
  }

  /** The first six category labels of the mock catalog hold five distinct categories. */
  lemma MockCategoriesPrefix(all: seq<string>)
    requires all == ["Beverages", "Beverages", "Snacks", "Cooking", "Staples", "Home Care", "Personal Care", "Snacks"]
    ensures Distinct(all[..6]) == ["Beverages", "Snacks", "Cooking", "Staples", "Home Care"]
  {
    MockCategoriesPrefix3(all);
    DistinctStep(all, 4, ["Beverages", "Snacks"], "Cooking");
    assert Distinct(all[..4]) == ["Beverages", "Snacks", "Cooking"];
    DistinctStep(all, 5, ["Beverages", "Snacks", "Cooking"], "Staples");
    assert Distinct(all[..5]) == ["Beverages", "Snacks", "Cooking", "Staples"];
    DistinctStep(all, 6, ["Beverages", "Snacks", "Cooking", "Staples"], "Home Care");
  }

  /** The first three category labels of the mock catalog hold two distinct categories. */
  lemma MockCategoriesPrefix3(all: seq<string>)
    requires all == ["Beverages", "Beverages", "Snacks", "Cooking", "Staples", "Home Care", "Personal Care", "Snacks"]
    ensures Distinct(all[..3]) == ["Beverages", "Snacks"]
  {
    DistinctStep(all, 1, [], "Beverages");
    DistinctStep(all, 2, ["Beverages"], "Beverages");
    DistinctStep(all, 3, ["Beverages"], "Snacks");
  }
}
