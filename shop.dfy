/** The data the shopper's pages share: a product as `/api/products` returns
    it, and the cart kept in the browser, a plain object from product id to
    quantity. */
module Shop {

  import opened Wrappers
  import Lists
  import Js
  import Strings

  /** A catalog product; `price` is the server's text, such as "29850". */
  datatype Product = Product(id: string, name: string, price: string, stockQuantity: int,
                             categoryId: string, categoryName: string)

  /** `parseFloat(product.price)`, in cents; `None` stands for `NaN`. */
  function PriceCents(p: Product): Option<int> {
    Strings.ParseFloatCents(p.price)
  }

  /** A price times a quantity, where `NaN` times anything is `NaN`. */
  function Times(price: Option<int>, quantity: int): Option<int> {
    if price.Some? then Some(price.value * quantity) else None
  }

  /** The sum of two amounts, `NaN` when either is. */
  function Plus(a: Option<int>, b: Option<int>): Option<int> {
    if a.Some? && b.Some? then Some(a.value + b.value) else None
  }

  /** `{[productId: string]: number}` */
  type Cart = Js.Record<int>

  /** `products.find(p => p.id === id)`: the first product with that id, if any. */
  function FindProduct(products: seq<Product>, id: string): (r: Option<Product>)
    ensures r.Some? ==> r.value.id == id
    ensures r.Some? ==> exists i :: 0 <= i < |products| && products[i] == r.value
                                    && forall j :: 0 <= j < i ==> products[j].id != id
    ensures r.None? <==> forall j :: 0 <= j < |products| ==> products[j].id != id
  {
    match Lists.FindIndex(products, (p: Product) => p.id == id)
    case None => None
    case Some(i) => Some(products[i])
  }
}
