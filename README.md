# Grocery post app: printer client, cart and admin rules in Dafny

This project models the core of a small grocery ordering web application
and proves properties of the model. The application has several parts:

- shoppers browse a catalog, keep a cart in the browser and place orders
  through two in-memory API routes;
- staff use an admin area, guarded by a middleware and a layout, to manage
  orders, products and categories;
- staff print order receipts on a Bluetooth thermal printer, which speaks
  the Epson ESC/POS command set.

The model is split into modules that follow the program:

- `Printer`: the `BluetoothPrinter` class, a state machine over its device,
  GATT server and write characteristic, plus an append-only log of the
  writes the printer received.
  - `EscPos`: the command bytes and the UTF-8 text encoding.
  - `Transport`: the reference behaviour of a chain of awaited writes. A
    failed write stops every later one.
  - `Receipt`: the fixed receipt layout.
- `Catalog`, `ShoppingCart` and `Shop`: the catalog and cart pages. The cart
  is a JavaScript object used as a dictionary (`Js.Record`: keys in
  insertion order plus a map).
- `UsersApi` and `OrdersApi`: the two route handlers, over their
  module-level arrays.
- `Middleware` and `MockProducts`: the `/admin` guard and the product-name
  lookup.
- `AdminOrders`, `AdminProducts`, `AdminCategories` and `AdminLists`: the
  admin pages. This includes the receipt-printing workflow and the local
  list updates.
- `Dashboard`, `AdminLayout` and `AdminAuth`: the customer dashboard, the
  admin layout and the `useAdminAuth` hook.
- `Js`, `Lists`, `Strings` and `Wrappers`: the JavaScript semantics the rest
  relies on. These are truthiness, strict equality, `split`, `includes`,
  `parseInt`, `parseFloat` and `toFixed(2)` on integer cents, and `String(n)`.

The platform is modelled as inputs:

- the session;
- `fetch` answers, as an option holding the server's answer;
- how far `connect()` gets (`Printer.ConnectOutcome`);
- whether the device accepts the k-th write (`accepts: nat -> bool`);
- random and timestamp ids, and the current time.

Receipt printing never sees the real device. Its contracts say which writes
reach the printer's log and whether the result is true.

Where the intended behaviour and the code differ, the model follows the
code:

- `connect()` does not tear down an existing connection. A failure keeps
  whatever fields the earlier steps set.
- The admin orders page disconnects the printer only after a successful
  print. A connect or print failure leaves the connection open.

## Model

| member | source | states |
|---|---|---|
| Printer.BluetoothPrinter.constructor | lib/bluetooth-printer.ts:16-27 | a new client holds no device, server or characteristic, and nothing has been written |
| Printer.BluetoothPrinter.Connect | lib/bluetooth-printer.ts:30-59 | the result is true exactly when a characteristic was obtained; each field keeps what the steps before the failure produced (no server after "Failed to connect to GATT server"); a failure leaves the characteristic as it was and nothing escapes as an exception |
| Printer.BluetoothPrinter.Disconnect | lib/bluetooth-printer.ts:62-73 | afterwards characteristic, server and device are all cleared and the client is not connected, from any state, so a second call changes nothing |
| Printer.BluetoothPrinter.SendRaw | lib/bluetooth-printer.ts:76-81 | without a characteristic the write fails as "Not connected to printer" and the log is unchanged; otherwise exactly one write is issued and, if accepted, appended |
| Printer.BluetoothPrinter.SendText | lib/bluetooth-printer.ts:84-87 | one write holding the UTF-8 encoding of the text |
| Printer.BluetoothPrinter.SendCommand | lib/bluetooth-printer.ts:90-93 | one write holding the command bytes |
| Printer.BluetoothPrinter.PrintLine | lib/bluetooth-printer.ts:96-122 | the log and outcome are those of issuing `LineWrites` of the line in order, stopping at the first failed write |
| Printer.BluetoothPrinter.PrintHeader | lib/bluetooth-printer.ts:139-158 | the thirteen header lines are printed in order, each one only if every earlier line got through |
| Printer.BluetoothPrinter.PrintItems | lib/bluetooth-printer.ts:159-164 | the item loop prints two lines per item in item order, stopping at the first failure |
| Printer.BluetoothPrinter.PrintFooter | lib/bluetooth-printer.ts:165-174 | the six footer lines are printed in order, stopping at the first failure |
| Printer.BluetoothPrinter.PrintReceipt | lib/bluetooth-printer.ts:125-184 | the new log is exactly the writes of `ReceiptWrites(data)` up to the first failed one; the result is true exactly when all got through; on a disconnected client nothing is written and the result is false |
| Receipt.LineLayout | lib/bluetooth-printer.ts:96-122 | a line's writes are bold-on (if bold), the alignment command (if aligned), text plus "\n" as one write, bold-off (if bold), align-left (if aligned); with no options it is the single text write |
| Receipt.ReceiptLayout | lib/bluetooth-printer.ts:139-174 | for N items the receipt makes 19 + 2N `printLine` calls; item i gives "<q> x <name>" at 13 + 2i and its price line at 14 + 2i; the second line is "Phone: <storePhone>" centred |
| Receipt.ItemLinesAt | lib/bluetooth-printer.ts:159-164 | item i of the list gives lines 2i and 2i + 1 of the item block |
| Receipt.ReceiptBrackets | lib/bluetooth-printer.ts:137-177 | the write stream opens with ESC @ (`1B 40`) and closes with GS V 0 (`1D 56 00`) |
| Receipt.ReceiptDelivery | lib/bluetooth-printer.ts:135-183 | a receipt run is initialize, then the lines, then the cut, and each stage runs only if the previous one passed |
| Receipt.DeliverLinesWrites | lib/bluetooth-printer.ts:135-179 | printing lines one call at a time issues the same writes as one chain of all their writes |
| Transport.DeliverSpec | lib/bluetooth-printer.ts:135-183 | the log only grows, by exactly the writes before the first rejected one; the chain passes exactly when every write got through; a client without a characteristic fails with NotConnected and receives nothing |
| Transport.DeliverConcat | lib/bluetooth-printer.ts:135-183 | in a chain split in two, a failure in the first part means the second is never issued; otherwise the second continues from where the first left off |
| EscPos.AlignCommand | lib/bluetooth-printer.ts:104-109 | ESC a n with n = 0, 1, 2 for left, center, right |
| EscPos.EncodeChar | lib/bluetooth-printer.ts:84-87 | each character is 1 to 4 bytes, a single byte exactly for ASCII |
| EscPos.EncodeAppend | lib/bluetooth-printer.ts:113 | encoding text + "\n" is the text's encoding followed by the newline byte |
| EscPos.EncodeAscii | lib/bluetooth-printer.ts:84-87 | ASCII text is sent one byte per character, each byte the character code |
| EscPos.DecodeEncode | lib/bluetooth-printer.ts:84-87 | UTF-8 decoding the bytes sent gives back exactly the text |
| Catalog.FilterProducts | app/catalog/page.tsx:90-104 | with an empty query and no selected category the shown products are all products |
| Catalog.FilterProductsSpec | app/catalog/page.tsx:93-101 | the filter chain is the order-preserving subsequence of products whose lowercased name contains the lowercased query (if any) and whose category is the selected one (if any) |
| Catalog.CatalogPage.ApplyFilter | app/catalog/page.tsx:90-104 | the effect sets the shown products to the filter of the current products, query and category |
| Catalog.CatalogPage.AddToCart | app/catalog/page.tsx:106-112 | that product's quantity rises by one, starting from zero if absent; every other entry and the key order stay; the cart count rises by exactly one; positive quantities stay positive |
| Catalog.AddOneFacts | app/catalog/page.tsx:106-122 | adding one of a product raises `getCartCount` by one and keeps every quantity at least one |
| Catalog.CountAfterSet | app/catalog/page.tsx:120-122 | setting an entry moves the count by the difference between the new and the old quantity |
| Catalog.CountAfterDelete | app/catalog/page.tsx:120-122 | removing an entry takes its quantity off the count |
| Catalog.TotalIgnoresUnknown | app/catalog/page.tsx:124-132 | entries for products that are not in the list do not change the total (a number of cents, or `NaN` when a known product's price reads as `NaN`), whether added or removed |
| Catalog.CartButtonRule | app/catalog/page.tsx:171 | for a cart of positive quantities the cart button is disabled exactly when the cart is empty |
| Catalog.AddButtonRule | app/catalog/page.tsx:235-241 | the add button is disabled exactly when it reads "Out of Stock", which is when the stock is exactly 0; any other stock, negative included, reads "Add to Cart" and leaves it enabled |
| Catalog.CatalogPage.GroupedProducts | app/catalog/page.tsx:134-145 | one group per category that occurs among the shown products, holding that category's products in their shown order; the group sizes add up to the number of shown products |
| Catalog.CatalogPage.Bucket | app/catalog/page.tsx:137-142 | one `forEach` step creates the bucket when missing, then pushes the product |
| Catalog.GroupsStep | app/catalog/page.tsx:137-142 | one step keeps the grouping invariant for the products handled so far |
| Shop.FindProduct | app/catalog/page.tsx:126 | the first product with that id, and none exactly when no product has it |
| Js.Set | app/cart/page.tsx:70 | the key maps to the new value, other keys keep their values, and a new key goes at the end of the key order |
| Js.Delete | app/cart/page.tsx:78-79 | the key is gone, the other keys keep their values and their order |
| Js.DeleteAbsent | app/cart/page.tsx:76-83 | deleting a key the object does not hold leaves it unchanged |
| Js.Field | app/api/users/route.ts:15-16 | destructuring fails exactly for a `null` body (and `undefined`) |
| ShoppingCart.CartPage.UpdateQuantity | app/cart/page.tsx:63-74 | a quantity of zero or less behaves exactly as removal; a positive one sets that entry to it; other entries are unchanged; the count moves accordingly |
| ShoppingCart.CartPage.RemoveFromCart | app/cart/page.tsx:76-83 | only that key is deleted; removing an absent key changes nothing |
| ShoppingCart.CartPage.Decrease | app/cart/page.tsx:203 | "-" at quantity one removes the product; above one it lowers the quantity by one |
| ShoppingCart.CartPage.Increase | app/cart/page.tsx:211 | "+" sets the quantity to one more |
| ShoppingCart.CartItemsSpec | app/cart/page.tsx:85-90 | the cart items are, in cart order, exactly the entries whose product exists, each with that product and the entry's quantity |
| ShoppingCart.ItemsOfIds | app/cart/page.tsx:86-89 | the `map`-then-`filter(Boolean)` keeps exactly the known product ids, in order |
| ShoppingCart.TotalsAgree | app/cart/page.tsx:92-96 | the cart page's total, over the cart items, equals the catalog page's total over the entries, `NaN` for the same carts |
| ShoppingCart.CheckoutPayload | app/cart/page.tsx:99-118 | the request carries the customer id it was given, one line per cart item, in order, with the product id, the quantity and the product's own price text unchanged, and `toFixed(2)` of the catalog page's total |
| ShoppingCart.CheckoutTotalMatchesLines | app/cart/page.tsx:100-117 | every line's price is the price text of the product it names; `parseFloat` of the total text gives the sum of the lines' parsed prices times their quantities, which is the page's total, and a `NaN` price makes both `NaN` |
| ShoppingCart.CartPage.Checkout | app/cart/page.tsx:98-127 | the request is `CheckoutPayload` of the cart before the call; the cart is emptied exactly when the order was accepted |
| Strings.ParseFloatNat | app/api/products/route.ts:9 | a whole-number price text such as "29850" reads as that many units, 100 cents each |
| Strings.ParseFloatToFixed | app/cart/page.tsx:117 | `parseFloat` reads back what `toFixed(2)` wrote, "NaN" included |
| Strings.ParseFloatBlank | app/cart/page.tsx:94 | text that starts with neither white space, a digit, a sign nor a '.' reads as `NaN`; JavaScript's one exception, "Infinity", is not modelled (see Left out) |
| UsersApi.FindByPhone | app/api/users/route.ts:27 | the first user whose phone number is strictly equal, and none exactly when there is none |
| UsersApi.PostRejects | app/api/users/route.ts:19-24 | a missing or falsy name or phone number gives 400, and a `null` body or a body that is not JSON gives 500; neither changes the store |
| UsersApi.PostFindOrCreate | app/api/users/route.ts:27-43 | a known phone number returns the first user holding it, whatever the name sent, and adds nothing; an unknown one appends exactly one user with the given name and phone and returns it |
| UsersApi.PostPreserves | app/api/users/route.ts:27-41 | phone numbers stay pairwise distinct, stored users are never changed or reordered, and at most one user is added |
| UsersApi.UserStore.HandlePost | app/api/users/route.ts:13-51 | the handler's new store and response are those of the reference `Post` |
| OrdersApi.WithPlaceholder | app/api/orders/route.ts:30-36 | the stored order with the placeholder user attached |
| OrdersApi.PostSpec | app/api/orders/route.ts:4-46 | a falsy userId, items or totalPrice gives 400, a `null` body or a body that is not JSON 500, neither changing storage; otherwise exactly one "Pending" order with the given fields is appended and answered with the placeholder user, and stored orders are unchanged |
| OrdersApi.EmptyItemsAccepted | app/api/orders/route.ts:10 | an empty items array is truthy, so such an order is accepted |
| OrdersApi.List | app/api/orders/route.ts:52-60 | one entry per stored order, in storage order, each with the placeholder user |
| OrdersApi.ListAfterPost | app/api/orders/route.ts:27-60 | after an accepted POST the listing is the earlier listing followed by the new order |
| OrdersApi.OrderStorage.HandlePost | app/api/orders/route.ts:4-46 | the handler's new storage and response are those of the reference `Post` |
| Middleware.ProtectedIffAdminPrefix | middleware.ts:6-12 | the `isProtectedPath` test holds exactly when the path starts with "/admin"; on its own it would count "/administrator" too |
| Middleware.HandleSpec | middleware.ts:8-33 | with the matcher, every matched path ("/admin" and below "/admin/") is protected; the session is looked up exactly for matched paths, which pass exactly with a session and are otherwise redirected to "/admin/login"; "/administrator" never reaches the guard and passes |
| Middleware.GuardSpec | middleware.ts:12-28 | for the function alone, unprotected paths pass with no session lookup; protected paths pass exactly with a session and are otherwise redirected to "/admin/login" |
| Middleware.LoginRedirectsToItself | middleware.ts:20-25 | "/admin/login" is matched, and a visitor without a session who asks for it is redirected to "/admin/login" |
| Middleware.GuardExemptingLoginSpec | middleware.ts:12-28 | with the login page exempted it is always reachable, no redirect targets the page asked for, and every other path is guarded as before |
| MockProducts.NameIn | lib/mock-products.ts:42-43 | the name of the first product with the id, or the fallback when none has it |
| MockProducts.ProductNameById | lib/mock-products.ts:41-44 | the first matching product's name, or "Product #" + id; always non-empty |
| MockProducts.KnownName | lib/mock-products.ts:2-43 | each listed id names its own product |
| MockProducts.KnownNames | lib/mock-products.ts:2-39 | ids "1" to "4" are Apple, Banana, Milk and Bread |
| MockProducts.UnknownName | lib/mock-products.ts:43 | an unknown id gives its "Product #" label |
| AdminOrders.UpdateStatusSpec | app/admin/orders/page.tsx:87-91 | only the orders with that id change, and only in status; length, order and other fields stay; applying it twice is applying it once |
| AdminOrders.AdminOrdersPage.ApplyStatusUpdate | app/admin/orders/page.tsx:82-91 | a successful update applies the status the server answered with; a failed one changes nothing |
| AdminOrders.TransitionsForward | app/admin/orders/page.tsx:275-292 | "Pending" offers only "Ready for Pickup", which offers only "Completed"; each move goes one stage forward; other statuses offer none |
| AdminOrders.StatusBadge | app/admin/orders/page.tsx:174-185 | the three known statuses get their own style, with "Ready" as the caption for "Ready for Pickup"; any other status gets the secondary style and its own text |
| AdminOrders.PrintDisabledRule | app/admin/orders/page.tsx:269 | without Web Bluetooth every print button is disabled; raising an order's flag disables its button and lowering it enables it, and other orders' buttons are unaffected |
| AdminOrders.ReceiptFor | app/admin/orders/page.tsx:134-147 | the receipt data holds the store constants, the order's id, customer and total, and its items one to one and in order |
| AdminOrders.ReceiptForLayout | app/admin/orders/page.tsx:141-145 | the printed receipt lists the order's items one to one, in order, at lines 13 + 2i and 14 + 2i |
| AdminOrders.JobStepsSpec | app/admin/orders/page.tsx:107-172 | without Web Bluetooth only the "Not Supported" toast happens; otherwise the order's flag is raised first and lowered last on every path, the printer is connected exactly when the details came back, and it is disconnected exactly after a successful print |
| AdminOrders.AdminOrdersPage.PrintReceipt | app/admin/orders/page.tsx:107-172 | the page's steps are `JobSteps` of the outcomes; the flag ends false; the printer's log is the receipt's writes up to the first failure; the printer stays connected exactly when it connected and the print failed; when `connect()` fails nothing is written |
| AdminOrders.AdminOrdersPage.RunPrinter | app/admin/orders/page.tsx:126-161 | a fresh printer is connected, printed on only if connected (its log is empty otherwise), and disconnected only after a successful print |
| AdminLists.Replace | app/admin/products/page.tsx:156-158 | every item with the edited id becomes the server result, the others stay, and the length stays |
| AdminLists.Append | app/admin/products/page.tsx:165 | the result goes at the end and the earlier items are unchanged |
| AdminLists.Remove | app/admin/products/page.tsx:193 | the list does not grow; every remaining item was in the list and has another id, and every item with another id remains |
| AdminLists.RemoveAppend | app/admin/products/page.tsx:193 | deleting from a list in two parts is deleting from each part, in order, so the remaining items keep their relative order |
| AdminLists.ReplaceKeepsIds | app/admin/products/page.tsx:156-158 | a result with the edited id keeps every position's id |
| AdminLists.AbsentUnchanged | app/admin/categories/page.tsx:116-153 | editing or deleting an id the list does not hold changes nothing |
| AdminLists.RemoveAfterReplace | app/admin/products/page.tsx:156-193 | deleting after an edit gives what deleting alone gives |
| AdminLists.RemoveAfterAppend | app/admin/products/page.tsx:165-193 | deleting a just-created item gives back the earlier items with other ids, in order |
| AdminLists.SubmitRequest | app/admin/products/page.tsx:134-135 | PUT exactly while editing, POST exactly otherwise |
| AdminLists.DeleteRequest | app/admin/products/page.tsx:186-188 | a DELETE request |
| AdminLists.RequestTargets | app/admin/products/page.tsx:134-188 | saving an edit and deleting address the same item URL; distinct ids give distinct URLs; no item URL is the collection's own |
| AdminProducts.EditRoundTrip | app/admin/products/page.tsx:112-147 | opening a product and saving it untouched sends back its own name, price, stock and category |
| AdminProducts.BlankStockIsNull | app/admin/products/page.tsx:104-145 | an empty stock field is sent as `null` (the `NaN` of `parseInt`) |
| AdminProducts.StockBadge | app/admin/products/page.tsx:344 | "default" exactly above 10, "secondary" exactly for 1 to 10, "destructive" exactly for 0 or less |
| AdminProducts.StockBadgeMonotone | app/admin/products/page.tsx:344 | less stock never shows a milder badge |
| AdminProducts.StockBadgeAndCatalog | app/admin/products/page.tsx:344 | a product the catalog shows as out of stock has the destructive badge; negative stock is destructive here yet can still be added in the catalog |
| AdminProducts.ProductsPage.ResetForm | app/admin/products/page.tsx:104-110 | empty fields and no product being edited |
| AdminProducts.ProductsPage.OpenDialog | app/admin/products/page.tsx:112-123 | editing copies the product's fields into the form and records it; adding resets the form; the dialog opens either way |
| AdminProducts.ProductsPage.CloseDialog | app/admin/products/page.tsx:125-128 | the dialog closes and the form resets |
| AdminProducts.ProductsPage.Submit | app/admin/products/page.tsx:130-182 | the request and body come from the form; on success an edit replaces by id, a create appends and the dialog closes; on failure nothing changes |
| AdminProducts.ProductsPage.Delete | app/admin/products/page.tsx:184-193 | the DELETE request for the id; on success every product with that id is removed; on failure nothing changes |
| AdminCategories.CategoryRequests | app/admin/categories/page.tsx:99-148 | PUT and DELETE go to "/api/categories/<id>", POST to "/api/categories" |
| AdminCategories.CategoriesPage.ResetForm | app/admin/categories/page.tsx:75-78 | empty name and no category being edited |
| AdminCategories.CategoriesPage.OpenDialog | app/admin/categories/page.tsx:80-88 | editing copies the name and records the category; otherwise the form resets; the dialog opens |
| AdminCategories.CategoriesPage.CloseDialog | app/admin/categories/page.tsx:90-93 | the dialog closes and the form resets |
| AdminCategories.CategoriesPage.Submit | app/admin/categories/page.tsx:95-142 | the body is `{ name }`; on success an edit replaces by id, a create appends and the dialog closes; on failure nothing changes |
| AdminCategories.CategoriesPage.Delete | app/admin/categories/page.tsx:144-167 | on success every category with that id is removed, the rest keep their order |
| Dashboard.FirstCharsSpec | app/dashboard/page.tsx:52-54 | one character per non-empty piece, its first, in order; empty pieces give nothing |
| Dashboard.InitialsSpec | app/dashboard/page.tsx:50-56 | for a non-empty name the initials are the uppercased first letters of its words, in order; otherwise the uppercased first letter of the email; none (the page throws) exactly when both are empty |
| Dashboard.TwoWordInitials | app/dashboard/page.tsx:50-55 | a first and a last name give their two uppercased initials |
| Dashboard.SpacesOnlyName | app/dashboard/page.tsx:50-55 | a name of one space is truthy but gives empty initials without consulting the email |
| Dashboard.ShortId | app/dashboard/page.tsx:112 | the first eight characters of the id, or all of it when shorter |
| Dashboard.ShortIdProperties | app/dashboard/page.tsx:112 | shortening twice is shortening once, and ids of at most eight characters are shown whole |
| Dashboard.RedirectRule | app/dashboard/page.tsx:17-48 | the page redirects to "/sign-in" exactly when it renders nothing, and renders content only for a session |
| AdminLayout.NavHrefsDistinct | app/admin/layout.tsx:21-27 | the five navigation hrefs are pairwise distinct |
| AdminLayout.AtMostOneActive | app/admin/layout.tsx:108-110 | at most one item is active for any path; a path below any item's href, such as "/admin/orders/7", activates none of the items |
| AdminLayout.HeaderTitleOfSection | app/admin/layout.tsx:141 | under "/admin/" the title is the section segment, whatever follows, and "Dashboard" for an empty segment |
| AdminLayout.HeaderTitleDefault | app/admin/layout.tsx:141 | "/admin" and a missing path show "Dashboard" |
| AdminLayout.RedirectRule | app/admin/layout.tsx:40-63 | the layout redirects to "/admin/login" exactly when it renders nothing |
| AdminLayout.LoginPageHidden | app/admin/layout.tsx:40-63 | a signed-out visitor of "/admin/login" gets nothing rendered and a redirect to the same page |
| AdminLayout.LayoutForSpec | app/admin/layout.tsx:40-63 | with the login page exempted the login form is shown, no redirect targets the page it leaves, and other pages behave as before |
| AdminAuth.AdminAuthHook.constructor | hooks/use-admin-auth.ts:8 | `isAuthenticated` starts false |
| AdminAuth.EffectSpec | hooks/use-admin-auth.ts:10-23 | while pending nothing changes and there is no redirect; afterwards the state says whether there is a user, the redirect to "/admin/login" happens exactly without one, as in the admin layout, and a second run changes nothing |
| AdminAuth.AdminAuthHook.RunEffect | hooks/use-admin-auth.ts:10-23 | one run of the effect sets the state and returns the redirect as `Effect` says |
| Strings.FormatCentsRoundTrip | lib/bluetooth-printer.ts:162 | every amount is written with exactly two fraction digits and reads back as the same number of cents; a leading '-' appears exactly for negatives |
| Strings.ParseNatToString | lib/bluetooth-printer.ts:160 | a decimal rendering reads back as the number it renders |
| Strings.ToLower | app/catalog/page.tsx:95 | same length, each character lowercased |
| Strings.IncludesAt | app/catalog/page.tsx:95 | `includes` holds exactly when the query occurs at some position |
| Strings.Split | app/dashboard/page.tsx:52 | at least one piece, and no piece holds the separator |
| Strings.JoinSplit | app/dashboard/page.tsx:52 | joining the pieces with the separator gives back the string |
| Strings.SplitFirst | app/admin/layout.tsx:141 | the text before the first separator is the first piece, and the later pieces are those of the rest |
| Strings.ToUpper | app/dashboard/page.tsx:55 | same length, each character uppercased |
| Strings.ParseIntToString | app/admin/products/page.tsx:145 | `parseInt` reads back what `String` wrote for an integer, stopping at the first non-digit |
| Strings.ParseIntBlank | app/admin/products/page.tsx:145 | text that starts with neither white space, a digit nor a sign is `NaN`, the empty text included |

## Left out

- The Web Bluetooth and GATT calls are left out. So are `isWebBluetoothSupported` and `requestBluetoothPrinter`. They are device I/O, so `connect()` takes its outcome as an input and support is a constant of the orders page.
- The `PrinterOptions` width and device name are left out, as are the `size` field of a print job. Nothing in the model reads them.
- Floating point is not modelled. Prices, totals and `toFixed(2)` work on integer cents, with `NaN` as `None`. The admin orders page's `parseFloat` of the purchase price and of the order total is taken as input cents.
- Strings.ParseFloatCents: a text whose value is not a whole number of cents (a non-zero third fraction digit) reads as `None`, like `NaN`, since floating point is not modelled. Exponents, "Infinity" and non-ASCII Unicode white space are not read; the ASCII white space (space, tab, line feed, vertical tab, form feed, carriage return) is skipped.
- lib/currency.ts is not part of this model. It is locale formatting and a float exchange rate.
- Several effects are not modelled: `fetch`, toasts, `localStorage`, the 30-second polling, router pushes (kept only as redirect targets) and all JSX rendering. Server answers are inputs.
- The refresh `fetchProducts()` / `fetchCategories()` after a submit is not modelled. It only replaces the list with the server's answer.
- The ORM-backed admin, analytics and search routes are not part of this model, nor are the database schema, the auth library configuration and the login page.
- Random and timestamp ids and the current time are parameters, not generated.
- `toLocaleString` of the order date is an input string.
- The CSS `capitalize` of the header title is not modelled. The title is the raw path segment.
- Js.Record: JavaScript lists integer-like keys first, in numeric order. The model keeps every key in insertion order.
- Strings.ToLower: maps only the ASCII letters. Unicode case mapping is not modelled.
- Strings.ToUpper: maps only the ASCII letters. Unicode case mapping is not modelled.
- Strings.ParseInt: reads decimal text only. The "0x" prefix and non-ASCII Unicode white space are not modelled; the ASCII white space, vertical tab and form feed included, is skipped.
- EscPos.Encode: Dafny characters are Unicode scalar values, so the lone surrogates that `TextEncoder` replaces cannot occur.
- Printer.BluetoothPrinter.PrintReceipt: the body is split into PrintHeader, PrintItems and PrintFooter. These make the same calls in the same order, and the split keeps each proof small.
- AdminOrders.AdminOrdersPage.PrintReceipt: only this page's flag, steps and created printer are modelled. Concurrent jobs on other orders are not.

## Findings

| source | as written | input that shows it | evidently intended | confidence | as-written member | corrected member |
|---|---|---|---|---|---|---|
| middleware.ts:12-25 | every path that starts with "/admin" needs a session, the login page included | a request for "/admin/login" without a session is redirected to "/admin/login" again | the login page is reachable without a session | not executed | Middleware.LoginRedirectsToItself | Middleware.GuardExemptingLoginSpec |
| app/admin/layout.tsx:40-63 | the admin layout, which also wraps the login page, renders nothing and redirects to the login page when there is no user | a signed-out visit of "/admin/login" renders nothing and redirects to the same page | the login form is shown to signed-out visitors | not executed | AdminLayout.LoginPageHidden | AdminLayout.LayoutForSpec |
