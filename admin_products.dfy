/** The admin products page: the product dialog's form state, the request
    a submit or a delete sends, the local list update after a successful
    answer, and the stock badge. The server's answers are inputs. */
module AdminProducts {

  import opened Wrappers
  import Strings
  import Shop
  import Catalog
  import opened AdminLists

  /** A product as the admin page lists it; the price is the server's text. */
  datatype AdminProduct = AdminProduct(id: string, name: string, price: string, stockQuantity: int,
                                       categoryId: string, categoryName: string, createdAt: string)

  function ProductId(p: AdminProduct): string { p.id }

  const Collection := "/api/products"

  /** The dialog's input fields, all held as the text the inputs show. */
  datatype ProductForm = ProductForm(name: string, price: string, stockQuantity: string, categoryId: string)

  /** The JSON body of a submit; `None` is the `NaN` that `parseInt` gives
      for stock text without digits, which `JSON.stringify` sends as `null`. */
  datatype ProductBody = ProductBody(name: string, price: string, stockQuantity: Option<int>, categoryId: string)

  function BlankForm(): ProductForm {
    ProductForm("", "", "", "")
  }

  /** The fields `handleOpenDialog(product)` fills in. */
  function FormFor(p: AdminProduct): ProductForm {
    ProductForm(p.name, p.price, Strings.IntToString(p.stockQuantity), p.categoryId)
  }

  /** `{ name, price, stockQuantity: parseInt(stockQuantity), categoryId }` */
  function BodyOf(form: ProductForm): ProductBody {
    ProductBody(form.name, form.price, Strings.ParseInt(form.stockQuantity), form.categoryId)
  }

  /** Opening a product for editing and saving it untouched sends back the
      product's own name, price, stock and category. */
  lemma {:induction false} EditRoundTrip(p: AdminProduct)
    ensures BodyOf(FormFor(p)) == ProductBody(p.name, p.price, Some(p.stockQuantity), p.categoryId)
  {
    Strings.ParseIntToString(p.stockQuantity, "");
    assert Strings.IntToString(p.stockQuantity) + "" == Strings.IntToString(p.stockQuantity);
  }

  /** Stock text with no digits is sent as `null`. */
  lemma {:induction false} BlankStockIsNull()
    ensures BodyOf(BlankForm()).stockQuantity == None
  {
    Strings.ParseIntBlank("");
  }

  datatype StockVariant = Default | Secondary | Destructive

  /** The stock column's badge. */
  function StockBadge(stock: int): (v: StockVariant)
    ensures v == Default <==> stock > 10
    ensures v == Secondary <==> 0 < stock <= 10
    ensures v == Destructive <==> stock <= 0
  {
    if stock > 10 then Default else if stock > 0 then Secondary else Destructive
  }

  function Severity(v: StockVariant): nat {
    match v
    case Default => 0
    case Secondary => 1
    case Destructive => 2
  }

  /** Less stock never shows a milder badge. */
  lemma StockBadgeMonotone(less: int, more: int)
    requires less <= more
    ensures Severity(StockBadge(less)) >= Severity(StockBadge(more))
  {
  }

  /** A product the catalog shows as out of stock carries the destructive
      badge here; a product with negative stock carries it too, although
      the catalog still lets it be added to the cart. */
  lemma StockBadgeAndCatalog(p: Shop.Product)
    ensures Catalog.AddButtonDisabled(p) ==> StockBadge(p.stockQuantity) == Destructive
    ensures p.stockQuantity < 0 ==> StockBadge(p.stockQuantity) == Destructive && !Catalog.AddButtonDisabled(p)
  {
  }

  class ProductsPage {
    var products: seq<AdminProduct>
    var isDialogOpen: bool
    var editing: Option<AdminProduct>
    var form: ProductForm

    constructor()
      ensures products == [] && !isDialogOpen && editing == None && form == BlankForm()
    {
      products := [];
      isDialogOpen := false;
      editing := None;
      form := BlankForm();
    }

    /** `resetForm`: empty fields and no product being edited. */
    method ResetForm()
      modifies this`form, this`editing
      ensures form == BlankForm() && editing == None
    {
      form := BlankForm();
      editing := None;
    }

    /** `handleOpenDialog(product?)`: editing fills the fields from the
        product, adding starts from empty ones; the dialog opens either way. */
    method OpenDialog(product: Option<AdminProduct>)
      modifies this`form, this`editing, this`isDialogOpen
      ensures isDialogOpen && editing == product
      ensures product.Some? ==> form == FormFor(product.value)
      ensures product.None? ==> form == BlankForm()
    {
      if product.Some? {
        editing := product;
        form := FormFor(product.value);
      } else {
        ResetForm();
      }
      isDialogOpen := true;
    }

    /** `handleCloseDialog` */
    method CloseDialog()
      modifies this`form, this`editing, this`isDialogOpen
      ensures !isDialogOpen && form == BlankForm() && editing == None
    {
      isDialogOpen := false;
      ResetForm();
    }

    /** `handleSubmit`: `result` is the product the server answered with,
        `None` when the request failed. On success an edit replaces the
        products with the edited id and a create appends, and the dialog
        closes; on failure nothing changes. */
    method Submit(result: Option<AdminProduct>) returns (request: Request, body: ProductBody)
      modifies this`products, this`form, this`editing, this`isDialogOpen
      ensures request == SubmitRequest(Collection, if old(editing).Some? then Some(old(editing).value.id) else None)
      ensures body == BodyOf(old(form))
      ensures result.None? ==>
                products == old(products) && form == old(form) && editing == old(editing) && isDialogOpen == old(isDialogOpen)
      ensures result.Some? && old(editing).Some? ==>
                products == Replace(old(products), ProductId, old(editing).value.id, result.value)
      ensures result.Some? && old(editing).None? ==> products == Append(old(products), result.value)
      ensures result.Some? ==> !isDialogOpen && form == BlankForm() && editing == None
    {
      request := SubmitRequest(Collection, if editing.Some? then Some(editing.value.id) else None);
      body := BodyOf(form);
      if result.None? {
        return;
      }
      if editing.Some? {
        products := Replace(products, ProductId, editing.value.id, result.value);
      } else {
        products := Append(products, result.value);
      }
      CloseDialog();
    }

    /** `handleDelete(productId)`: `ok` is whether the server accepted. */
    method Delete(productId: string, ok: bool) returns (request: Request)
      modifies this`products
      ensures request == DeleteRequest(Collection, productId)
      ensures ok ==> products == Remove(old(products), ProductId, productId)
      ensures !ok ==> products == old(products)
    {
      request := DeleteRequest(Collection, productId);
      if ok {
        products := Remove(products, ProductId, productId);
      }
    }
  }
}
