/** The shopping cart page: setting and removing quantities, the list of
    cart items that refer to known products, the total, and the checkout
    request with the cart cleared on success. */
module ShoppingCart {

  import opened Wrappers
  import opened Shop
  import Strings
  import Lists
  import Js
  import Catalog

  /** `{ product, quantity }` */
  datatype CartItem = CartItem(product: Product, quantity: int)

  /** The `map`-then-`filter(Boolean)` over the entries with keys `keys`:
      an item for each entry whose product is known, nothing for the others. */
  function ItemsOf(products: seq<Product>, keys: seq<string>, m: map<string, int>): (items: seq<CartItem>)
    requires forall k :: k in keys ==> k in m
    ensures |items| <= |keys|
    decreases |keys|
  {
    if keys == [] then []
    else
      var rest := ItemsOf(products, keys[1..], m);
      match FindProduct(products, keys[0])
      case Some(p) => [CartItem(p, m[keys[0]])] + rest
      case None => rest
  }

  /** `getCartItems` */
  function CartItems(products: seq<Product>, cart: Cart): seq<CartItem>
    requires Js.Valid(cart)
  {
    ItemsOf(products, cart.keys, cart.values)
  }

  function ItemIds(items: seq<CartItem>): (ids: seq<string>)
    ensures |ids| == |items| && forall i :: 0 <= i < |items| ==> ids[i] == items[i].product.id
    decreases |items|
  {
    if items == [] then [] else [items[0].product.id] + ItemIds(items[1..])
  }

  predicate Known(products: seq<Product>, productId: string) {
    FindProduct(products, productId).Some?
  }

  /** The items are, in cart order, exactly the entries whose product is known. */
  lemma {:induction false} ItemsOfIds(products: seq<Product>, keys: seq<string>, m: map<string, int>)
    requires forall k :: k in keys ==> k in m
    ensures ItemIds(ItemsOf(products, keys, m)) == Lists.Filter(keys, k => Known(products, k))
    decreases |keys|
  {
    if keys != [] {
      ItemsOfIds(products, keys[1..], m);
      var rest := ItemsOf(products, keys[1..], m);
      if Known(products, keys[0]) {
        var items := ItemsOf(products, keys, m);
        assert items[1..] == rest;
      }
    }
  }

  /** Each item carries the entry's product and quantity. */
  lemma {:induction false} ItemsOfEntries(products: seq<Product>, keys: seq<string>, m: map<string, int>)
    requires forall k :: k in keys ==> k in m
    ensures forall it :: it in ItemsOf(products, keys, m) ==>
      && it.product.id in keys
      && FindProduct(products, it.product.id) == Some(it.product)
      && it.quantity == m[it.product.id]
    decreases |keys|
  {
    if keys != [] {
      ItemsOfEntries(products, keys[1..], m);
      var rest := ItemsOf(products, keys[1..], m);
      var items := ItemsOf(products, keys, m);
      assert forall x :: x in keys[1..] ==> x in keys;
      if Known(products, keys[0]) {
        assert forall it :: it in items ==> it == items[0] || it in rest;
      }
    }
  }

  /** The same statement for a whole cart. */
  lemma CartItemsSpec(products: seq<Product>, cart: Cart)
    requires Js.Valid(cart)
    ensures ItemIds(CartItems(products, cart)) == Lists.Filter(cart.keys, k => Known(products, k))
    ensures forall it :: it in CartItems(products, cart) ==>
      FindProduct(products, it.product.id) == Some(it.product) && Js.Get(cart, it.product.id) == Some(it.quantity)
  {
    ItemsOfIds(products, cart.keys, cart.values);
    ItemsOfEntries(products, cart.keys, cart.values);
  }

  /** The number of items whose price reads as `NaN`. */
  function ItemNaNs(items: seq<CartItem>): (n: nat)
    decreases |items|
  {
    if items == [] then 0
    else (if PriceCents(items[0].product).None? then 1 else 0) + ItemNaNs(items[1..])
  }

  /** Price times quantity summed over the items, in cents, `NaN` prices left aside. */
  function ItemCents(items: seq<CartItem>): int
    decreases |items|
  {
    if items == [] then 0
    else PriceCents(items[0].product).GetOr(0) * items[0].quantity + ItemCents(items[1..])
  }

  /** `getTotalPrice`: the sum of price times quantity over the items, in
      cents, and `NaN` as soon as one price reads as `NaN`. */
  function ItemsTotal(items: seq<CartItem>): Option<int> {
    if ItemNaNs(items) == 0 then Some(ItemCents(items)) else None
  }

  lemma {:induction false} ItemsTotalOver(products: seq<Product>, keys: seq<string>, m: map<string, int>)
    requires forall k :: k in keys ==> k in m
    ensures ItemNaNs(ItemsOf(products, keys, m)) == Catalog.NaNLines(products, keys, m)
    ensures ItemCents(ItemsOf(products, keys, m)) == Catalog.CentsOver(products, keys, m)
    decreases |keys|
  {
    if keys != [] {
      ItemsTotalOver(products, keys[1..], m);
      Catalog.SumsCons(products, keys, m);
      var rest := ItemsOf(products, keys[1..], m);
      if Known(products, keys[0]) {
        assert ItemsOf(products, keys, m)[1..] == rest;
      }
    }
  }

  /** The cart page's total agrees with the catalog page's for the same cart
      and products: both count the known products only, and both are `NaN`
      for the same carts. */
  lemma TotalsAgree(products: seq<Product>, cart: Cart)
    requires Js.Valid(cart)
    ensures ItemsTotal(CartItems(products, cart)) == Catalog.TotalPrice(products, cart)
  {
    ItemsTotalOver(products, cart.keys, cart.values);
  }

  /** One line of the order request: `{ productId, quantity, price }`, the
      price being the product's price text. */
  datatype OrderLine = OrderLine(productId: string, quantity: int, price: string)

  /** The body of `POST /api/orders`. */
  datatype CheckoutBody = CheckoutBody(userId: Js.Value, items: seq<OrderLine>, totalPrice: string)

  function OrderLineOf(item: CartItem): OrderLine {
    OrderLine(item.product.id, item.quantity, item.product.price)
  }

  /** The request `handleCheckout` sends for the customer id it read: the
      id, one line per cart item carrying the product's own price text, and
      `toFixed(2)` of the page's total. */
  function CheckoutPayload(userId: Js.Value, products: seq<Product>, cart: Cart): (b: CheckoutBody)
    requires Js.Valid(cart)
    ensures b.userId == userId
    ensures var items := CartItems(products, cart);
      |b.items| == |items| && forall i :: 0 <= i < |items| ==>
        b.items[i] == OrderLine(items[i].product.id, items[i].quantity, items[i].product.price)
    ensures b.totalPrice == Strings.ToFixed(Catalog.TotalPrice(products, cart))
  {
    var items := CartItems(products, cart);
    TotalsAgree(products, cart);
    CheckoutBody(userId, seq(|items|, i requires 0 <= i < |items| => OrderLineOf(items[i])),
                 Strings.ToFixed(ItemsTotal(items)))
  }

  /** The total the lines themselves claim, reading each price text back
      with `parseFloat`. */
  function LinesTotal(lines: seq<OrderLine>): Option<int>
    decreases |lines|
  {
    if lines == [] then Some(0)
    else Plus(Times(Strings.ParseFloatCents(lines[0].price), lines[0].quantity), LinesTotal(lines[1..]))
  }

  /** Each line's price is the price text of the product it names, and the
      total text reads back as the sum of the lines' parsed prices times
      their quantities, which is the catalog page's total; a `NaN` price
      makes both "NaN". */
  lemma CheckoutTotalMatchesLines(userId: Js.Value, products: seq<Product>, cart: Cart)
    requires Js.Valid(cart)
    ensures var b := CheckoutPayload(userId, products, cart);
      && (forall i :: 0 <= i < |b.items| ==>
            FindProduct(products, b.items[i].productId).Some?
            && FindProduct(products, b.items[i].productId).value.price == b.items[i].price)
      && Strings.ParseFloatCents(b.totalPrice) == LinesTotal(b.items)
      && LinesTotal(b.items) == Catalog.TotalPrice(products, cart)
  {
    var b := CheckoutPayload(userId, products, cart);
    var items := CartItems(products, cart);
    CartItemsSpec(products, cart);
    forall i | 0 <= i < |b.items|
      ensures FindProduct(products, b.items[i].productId) == Some(items[i].product)
    {
      assert items[i] in items;
    }
    LinesTotalOf(items, b.items);
    TotalsAgree(products, cart);
    Strings.ParseFloatToFixed(Catalog.TotalPrice(products, cart));
  }

  lemma {:induction false} LinesTotalOf(items: seq<CartItem>, lines: seq<OrderLine>)
    requires |lines| == |items|
    requires forall i :: 0 <= i < |items| ==> lines[i] == OrderLineOf(items[i])
    ensures LinesTotal(lines) == ItemsTotal(items)
    decreases |items|
  {
    if items != [] {
      LinesTotalOf(items[1..], lines[1..]);
      var first := Times(PriceCents(items[0].product), items[0].quantity);
      assert LinesTotal(lines) == Plus(first, LinesTotal(lines[1..]));
      AddLine(first, ItemNaNs(items[1..]), ItemCents(items[1..]), ItemsTotal(items[1..]));
    }
  }

  /** Adding one line to a total kept as a `NaN` count and a sum of cents. */
  lemma AddLine(line: Option<int>, nans: int, cents: int, rest: Option<int>)
    requires nans >= 0 && rest == if nans == 0 then Some(cents) else None
    ensures Plus(line, rest) == if (if line.None? then 1 else 0) + nans == 0 then Some(line.GetOr(0) + cents) else None
  {
  }

  class CartPage {
    var cart: Cart
    var products: seq<Product>

    /** The initial state of the page's state variables. */
    constructor()
      ensures cart == Js.Empty() && products == []
    {
      cart := Js.Empty();
      products := [];
    }

    /** `removeFromCart`: the entry is gone, the others keep their quantities and order. */
    method RemoveFromCart(productId: string)
      requires Js.Valid(cart)
      modifies this`cart
      ensures cart == Js.Delete(old(cart), productId)
      ensures Js.Valid(cart) && Js.Get(cart, productId) == None
      ensures forall k :: k != productId ==> Js.Get(cart, k) == Js.Get(old(cart), k)
      ensures productId !in old(cart).keys ==> cart == old(cart)
    {
      if productId !in cart.keys {
        Js.DeleteAbsent(cart, productId);
      }
      var newCart := cart;
      newCart := Js.Delete(newCart, productId);
      cart := newCart;
    }

    /** `updateQuantity`: a quantity of zero or less removes the entry,
        any other quantity replaces it. */
    method UpdateQuantity(productId: string, quantity: int)
      requires Js.Valid(cart)
      modifies this`cart
      ensures Js.Valid(cart)
      ensures quantity <= 0 ==> cart == Js.Delete(old(cart), productId)
      ensures quantity > 0 ==> cart == Js.Set(old(cart), productId, quantity)
      ensures forall k :: k != productId ==> Js.Get(cart, k) == Js.Get(old(cart), k)
      ensures Catalog.CartCount(cart)
        == Catalog.CartCount(old(cart)) - Js.Get(old(cart), productId).GetOr(0) + (if quantity > 0 then quantity else 0)
    {
      Catalog.CountAfterDelete(cart, productId);
      Catalog.CountAfterSet(cart, productId, quantity);
      if quantity <= 0 {
        RemoveFromCart(productId);
        return;
      }
      cart := Js.Set(cart, productId, quantity);
    }

    /** The "-" button of an item: one less, and the item leaves the cart
        when its quantity was one. */
    method Decrease(item: CartItem)
      requires Js.Valid(cart)
      modifies this`cart
      ensures item.quantity <= 1 ==> cart == Js.Delete(old(cart), item.product.id)
      ensures item.quantity > 1 ==> cart == Js.Set(old(cart), item.product.id, item.quantity - 1)
    {
      UpdateQuantity(item.product.id, item.quantity - 1);
    }

    /** The "+" button of an item. */
    method Increase(item: CartItem)
      requires Js.Valid(cart)
      modifies this`cart
      ensures item.quantity >= 0 ==> cart == Js.Set(old(cart), item.product.id, item.quantity + 1)
      ensures item.quantity < 0 ==> cart == Js.Delete(old(cart), item.product.id)
    {
      UpdateQuantity(item.product.id, item.quantity + 1);
    }

    /** `handleCheckout` with the server's answer as `accepted`: the request
        is built from the cart, and the cart is emptied only when the order
        was accepted. */
    method Checkout(userId: Js.Value, accepted: bool) returns (body: CheckoutBody)
      requires Js.Valid(cart)
      modifies this`cart
      ensures body == CheckoutPayload(userId, products, old(cart))
      ensures accepted ==> cart == Js.Empty()
      ensures !accepted ==> cart == old(cart)
    {
      body := CheckoutPayload(userId, products, cart);
      if accepted {
        cart := Js.Empty();
      }
    }
  }
}
