/** The product catalog page: the search and category filter over the loaded
    products, the cart badge and total, adding to the cart, and the grouping
    of the shown products by category. */
module Catalog {

  import opened Wrappers
  import opened Shop
  import Strings
  import Lists
  import Js

  /** The lowercased name contains the lowercased query. */
  predicate NameMatches(p: Product, query: string) {
    Strings.Includes(Strings.ToLower(p.name), Strings.ToLower(query))
  }

  predicate InCategory(p: Product, category: string) {
    p.categoryId == category
  }

  /** A `string | null` state variable used as a condition is truthy exactly
      when it holds a non-empty string. */
  predicate IsSet(category: Option<string>) {
    category.Some? && category.value != ""
  }

  /** The reference rule: a product is shown when it matches the query, if
      there is one, and lies in the selected category, if there is one. */
  predicate Shown(p: Product, query: string, category: Option<string>) {
    (query == "" || NameMatches(p, query)) && (!IsSet(category) || InCategory(p, category.value))
  }

  /** The filter effect: the name filter, applied when the query is non-empty,
      then the category filter, applied when a category is selected. */
  function FilterProducts(products: seq<Product>, query: string, category: Option<string>): (r: seq<Product>)
    ensures query == "" && !IsSet(category) ==> r == products
  {
    var byName := if query != "" then Lists.Filter(products, p => NameMatches(p, query)) else products;
    if IsSet(category) then Lists.Filter(byName, p => InCategory(p, category.GetOr(""))) else byName
  }

  /** The two filters in a row are one order-preserving filter by `Shown`. */
  lemma FilterProductsSpec(products: seq<Product>, query: string, category: Option<string>)
    ensures FilterProducts(products, query, category) == Lists.Filter(products, p => Shown(p, query, category))
  {
    var shown := p => Shown(p, query, category);
    var byName := p => NameMatches(p, query);
    var inCat := p => InCategory(p, category.GetOr(""));
    if query != "" && IsSet(category) {
      Lists.FilterFilter(products, byName, inCat, shown);
    } else if query != "" {
      Lists.FilterCongruent(products, byName, shown);
    } else if IsSet(category) {
      Lists.FilterCongruent(products, inCat, shown);
    } else {
      Lists.FilterAll(products, shown);
    }
  }

  /** A quantity's share of `getCartCount`. */
  function Quantity(productId: string, quantity: int): int {
    quantity
  }

  /** `Object.values(cart).reduce((sum, count) => sum + count, 0)` */
  function CartCount(cart: Cart): int {
    Js.SumEntries(cart, Quantity)
  }

  /** Setting an entry of the cart moves the count by the difference of the quantities. */
  lemma CountAfterSet(cart: Cart, productId: string, quantity: int)
    requires Js.Valid(cart)
    ensures CartCount(Js.Set(cart, productId, quantity))
      == CartCount(cart) - Js.Get(cart, productId).GetOr(0) + quantity
  {
    Js.SumSet(cart, productId, quantity, Quantity);
  }

  /** Removing an entry takes its quantity off the count. */
  lemma CountAfterDelete(cart: Cart, productId: string)
    requires Js.Valid(cart)
    ensures CartCount(Js.Delete(cart, productId)) == CartCount(cart) - Js.Get(cart, productId).GetOr(0)
  {
    Js.SumDelete(cart, productId, Quantity);
  }

  /** An entry's share of `getTotalPrice`, in cents: price times quantity
      when the product is known and its price reads as a number, nothing
      for an unknown product. */
  function LineCents(products: seq<Product>, productId: string, quantity: int): int {
    match FindProduct(products, productId)
    case Some(p) => PriceCents(p).GetOr(0) * quantity
    case None => 0
  }

  /** One for an entry whose known product's price reads as `NaN`. */
  function LineNaN(products: seq<Product>, productId: string, quantity: int): int {
    match FindProduct(products, productId)
    case Some(p) => if PriceCents(p).None? then 1 else 0
    case None => 0
  }

  /** `getTotalPrice`, in cents: `NaN` as soon as one known product's price
      is `NaN`, and otherwise the sum of price times quantity over the
      known products. */
  function TotalPrice(products: seq<Product>, cart: Cart): Option<int> {
    if NaNLines(products, cart.keys, cart.values) == 0
    then Some(CentsOver(products, cart.keys, cart.values))
    else None
  }

  /** The number of entries among `keys` whose known product's price is `NaN`. */
  function NaNLines(products: seq<Product>, keys: seq<string>, m: map<string, int>): int {
    Js.Sum(keys, m, (k, q) => LineNaN(products, k, q))
  }

  /** The cents the entries among `keys` add up to, `NaN` prices left aside. */
  function CentsOver(products: seq<Product>, keys: seq<string>, m: map<string, int>): int {
    Js.Sum(keys, m, (k, q) => LineCents(products, k, q))
  }

  /** The first entry's share of both sums, and the rest. */
  lemma SumsCons(products: seq<Product>, keys: seq<string>, m: map<string, int>)
    requires keys != [] && keys[0] in m
    ensures NaNLines(products, keys, m) == LineNaN(products, keys[0], m[keys[0]]) + NaNLines(products, keys[1..], m)
    ensures CentsOver(products, keys, m) == LineCents(products, keys[0], m[keys[0]]) + CentsOver(products, keys[1..], m)
  {
  }

  /** Cart entries for products that are not in the list do not count
      towards the total: putting one in or taking it out leaves the total as it was. */
  lemma TotalIgnoresUnknown(products: seq<Product>, cart: Cart, productId: string, quantity: int)
    requires Js.Valid(cart)
    requires FindProduct(products, productId).None?
    ensures TotalPrice(products, Js.Set(cart, productId, quantity)) == TotalPrice(products, cart)
    ensures TotalPrice(products, Js.Delete(cart, productId)) == TotalPrice(products, cart)
  {
    var f := (k, q) => LineCents(products, k, q);
    var g := (k, q) => LineNaN(products, k, q);
    Js.SumSet(cart, productId, quantity, f);
    Js.SumDelete(cart, productId, f);
    Js.SumSet(cart, productId, quantity, g);
    Js.SumDelete(cart, productId, g);
  }

  /** Every quantity in the cart is at least one. */
  ghost predicate AllPositive(cart: Cart) {
    forall k :: k in cart.values ==> cart.values[k] >= 1
  }

  lemma {:induction false} CountAtLeastEntries(keys: seq<string>, m: map<string, int>)
    requires forall k :: k in keys ==> k in m && m[k] >= 1
    ensures Js.Sum(keys, m, Quantity) >= |keys|
    decreases |keys|
  {
    if keys != [] {
      CountAtLeastEntries(keys[1..], m);
    }
  }

  /** Adding one of a product raises the count by one and keeps every
      quantity positive. */
  lemma AddOneFacts(cart: Cart, productId: string)
    requires Js.Valid(cart)
    ensures var r := Js.Set(cart, productId, Js.Get(cart, productId).GetOr(0) + 1);
      && CartCount(r) == CartCount(cart) + 1
      && (AllPositive(cart) ==> AllPositive(r))
  {
    var q := Js.Get(cart, productId).GetOr(0) + 1;
    CountAfterSet(cart, productId, q);
    var r := Js.Set(cart, productId, q);
    if AllPositive(cart) {
      forall k | k in r.values
        ensures r.values[k] >= 1
      {
        assert Js.Get(r, k) == Some(r.values[k]);
      }
    }
  }

  /** The cart button is disabled when the count is zero. */
  predicate CartButtonDisabled(cart: Cart) {
    CartCount(cart) == 0
  }

  /** For a cart whose quantities are all positive, as adding and setting
      leave them, the cart button is disabled exactly when the cart is empty. */
  lemma CartButtonRule(cart: Cart)
    requires Js.Valid(cart) && AllPositive(cart)
    ensures CartButtonDisabled(cart) <==> cart.keys == []
  {
    CountAtLeastEntries(cart.keys, cart.values);
  }

  /** "Add to Cart" is disabled when the product's stock is exactly zero. */
  predicate AddButtonDisabled(p: Product) {
    p.stockQuantity == 0
  }

  /** The add button's caption: "Out of Stock" at zero stock, else "Add to Cart". */
  function AddButtonCaption(p: Product): string {
    if p.stockQuantity == 0 then "Out of Stock" else "Add to Cart"
  }

  /** The button says "Out of Stock" exactly when it is disabled, and any
      stock other than zero, negative stock included, leaves it enabled. */
  lemma AddButtonRule(p: Product)
    ensures AddButtonDisabled(p) <==> AddButtonCaption(p) == "Out of Stock"
    ensures !AddButtonDisabled(p) <==> AddButtonCaption(p) == "Add to Cart"
    ensures p.stockQuantity != 0 ==> !AddButtonDisabled(p)
  {
  }

  /** A group's share of the total number of grouped products. */
  function GroupSize(categoryId: string, group: seq<Product>): int {
    |group|
  }

  /** `groups` is the grouping of `xs`: one group per category id that occurs
      in `xs`, holding that category's products in their order in `xs`; the
      group sizes add up to the number of products. */
  ghost predicate GroupsOf(groups: Js.Record<seq<Product>>, xs: seq<Product>) {
    && Js.Valid(groups)
    && (forall k :: k in groups.values <==> exists j :: 0 <= j < |xs| && xs[j].categoryId == k)
    && (forall k :: k in groups.values ==> groups.values[k] == Lists.Filter(xs, p => InCategory(p, k)))
    && Js.SumEntries(groups, GroupSize) == |xs|
  }

  /** One `forEach` step: create the bucket if it is missing, then push. */
  function AddToGroup(groups: Js.Record<seq<Product>>, product: Product): (r: Js.Record<seq<Product>>)
    requires Js.Valid(groups)
    ensures Js.Valid(r)
  {
    var id := product.categoryId;
    var g := if Js.Get(groups, id).None? then Js.Set(groups, id, []) else groups;
    Js.Set(g, id, g.values[id] + [product])
  }

  /** The bucketing loop keeps `GroupsOf` for the products handled so far. */
  lemma GroupsNext(groups: Js.Record<seq<Product>>, shown: seq<Product>, i: nat)
    requires i < |shown| && GroupsOf(groups, shown[..i])
    ensures GroupsOf(AddToGroup(groups, shown[i]), shown[..i + 1])
  {
    assert shown[..i + 1] == shown[..i] + [shown[i]];
    GroupsStep(groups, shown[..i], shown[i]);
  }

  lemma GroupsStep(groups: Js.Record<seq<Product>>, xs: seq<Product>, x: Product)
    requires GroupsOf(groups, xs)
    ensures GroupsOf(AddToGroup(groups, x), xs + [x])
  {
    var id := x.categoryId;
    var g := if Js.Get(groups, id).None? then Js.Set(groups, id, []) else groups;
    if Js.Get(groups, id).None? {
      Lists.FilterNone(xs, p => InCategory(p, id));
      Js.SumSet(groups, id, [], GroupSize);
    }
    assert g.values[id] == Lists.Filter(xs, p => InCategory(p, id));
    Js.SumSet(g, id, g.values[id] + [x], GroupSize);
    GroupsStepKeys(groups, xs, x);
    GroupsStepValues(groups, xs, x);
  }

  lemma GroupsStepValues(groups: Js.Record<seq<Product>>, xs: seq<Product>, x: Product)
    requires GroupsOf(groups, xs)
    ensures var r := AddToGroup(groups, x);
      forall k :: k in r.values ==> r.values[k] == Lists.Filter(xs + [x], p => InCategory(p, k))
  {
    var id := x.categoryId;
    if Js.Get(groups, id).None? {
      Lists.FilterNone(xs, p => InCategory(p, id));
    }
    var r := AddToGroup(groups, x);
    forall k | k in r.values
      ensures r.values[k] == Lists.Filter(xs + [x], p => InCategory(p, k))
    {
      Lists.FilterSnoc(xs, x, p => InCategory(p, k));
    }
  }

  lemma GroupsStepKeys(groups: Js.Record<seq<Product>>, xs: seq<Product>, x: Product)
    requires GroupsOf(groups, xs)
    ensures var r := AddToGroup(groups, x);
      forall k :: k in r.values <==> exists j :: 0 <= j < |xs + [x]| && (xs + [x])[j].categoryId == k
  {
    var r := AddToGroup(groups, x);
    forall k
      ensures k in r.values <==> exists j :: 0 <= j < |xs + [x]| && (xs + [x])[j].categoryId == k
    {
      if k in r.values && k != x.categoryId {
        var j :| 0 <= j < |xs| && xs[j].categoryId == k;
        assert (xs + [x])[j] == xs[j];
      }
      if k == x.categoryId {
        assert (xs + [x])[|xs|] == x;
      }
      if exists j :: 0 <= j < |xs + [x]| && (xs + [x])[j].categoryId == k {
        var j :| 0 <= j < |xs + [x]| && (xs + [x])[j].categoryId == k;
        if j < |xs| {
          assert xs[j] == (xs + [x])[j];
        }
      }
    }
  }

  class CatalogPage {
    var products: seq<Product>
    var filteredProducts: seq<Product>
    var searchQuery: string
    var selectedCategory: Option<string>
    var cart: Cart

    /** The initial state of the page's state variables. */
    constructor()
      ensures products == [] && filteredProducts == [] && searchQuery == ""
      ensures selectedCategory == None && cart == Js.Empty()
    {
      products := [];
      filteredProducts := [];
      searchQuery := "";
      selectedCategory := None;
      cart := Js.Empty();
    }

    /** The effect that recomputes the shown products. */
    method ApplyFilter()
      modifies this`filteredProducts
      ensures filteredProducts == FilterProducts(products, searchQuery, selectedCategory)
    {
      filteredProducts := FilterProducts(products, searchQuery, selectedCategory);
    }

    /** `addToCart`: one more of the product, starting from none. */
    method AddToCart(productId: string)
      requires Js.Valid(cart)
      modifies this`cart
      ensures Js.Valid(cart)
      ensures Js.Get(cart, productId) == Some(Js.Get(old(cart), productId).GetOr(0) + 1)
      ensures forall k :: k != productId ==> Js.Get(cart, k) == Js.Get(old(cart), k)
      ensures cart.keys == if productId in old(cart).keys then old(cart).keys else old(cart).keys + [productId]
      ensures CartCount(cart) == CartCount(old(cart)) + 1
      ensures AllPositive(old(cart)) ==> AllPositive(cart)
    {
      var before := cart;
      var after := Js.Set(before, productId, Js.Get(before, productId).GetOr(0) + 1);
      AddOneFacts(before, productId);
      cart := after;
    }

    /** The body of the `forEach`: create the product's bucket if it is
        missing, then push the product onto it. */
    static method Bucket(groups: Js.Record<seq<Product>>, product: Product) returns (r: Js.Record<seq<Product>>)
      requires Js.Valid(groups)
      ensures r == AddToGroup(groups, product)
    {
      var id := product.categoryId;
      r := groups;
      if Js.Get(r, id).None? {
        r := Js.Set(r, id, []);
      }
      r := Js.Set(r, id, r.values[id] + [product]);
    }

    /** `groupedProducts`: the shown products bucketed by category id, each
        bucket created on the first product of its category. */
    method GroupedProducts() returns (groups: Js.Record<seq<Product>>)
      ensures Js.Valid(groups)
      ensures forall k :: k in groups.values <==>
                exists i :: 0 <= i < |filteredProducts| && filteredProducts[i].categoryId == k
      ensures forall k :: k in groups.values ==> groups.values[k] == Lists.Filter(filteredProducts, p => InCategory(p, k))
      ensures Js.SumEntries(groups, GroupSize) == |filteredProducts|
    {
      var shown := filteredProducts;
      groups := Js.Empty();
      var i := 0;
      while i < |shown|
        invariant 0 <= i <= |shown|
        invariant GroupsOf(groups, shown[..i])
      {
        GroupsNext(groups, shown, i);
        groups := Bucket(groups, shown[i]);
        i := i + 1;
      }
      assert shown[..i] == shown;
    }
  }
}
