/** `POST /api/orders` and `GET /api/orders` over the shared in-memory array
    of orders. The timestamp id and the creation time are inputs. */
module OrdersApi {

  import opened Wrappers
  import Js

  /** A stored order; `userId`, `items` and `totalPrice` are kept as they came in the body. */
  datatype Order = Order(id: string, userId: Js.Value, items: Js.Value, totalPrice: Js.Value,
                         status: string, createdAt: string)

  datatype Contact = Contact(name: string, phoneNumber: string)

  /** An order as the routes return it: the stored order plus a user. */
  datatype OrderView = OrderView(order: Order, user: Contact)

  datatype Response =
    | OrderResponse(view: OrderView)
    | ErrorResponse(status: int, error: string)

  const Pending := "Pending"
  const Placeholder := Contact("Customer", "Customer Phone")
  const Required := "User ID, items, and total price are required"
  const CreateFailed := "Failed to create order"

  /** The stored order with the placeholder user attached. */
  function WithPlaceholder(o: Order): (v: OrderView)
    ensures v.order == o && v.user == Placeholder
  {
    OrderView(o, Placeholder)
  }

  /** The reference behaviour of one `POST` against the stored orders;
      `body` is `None` when the request body is not JSON. */
  function Post(orders: seq<Order>, body: Option<Js.Value>, newId: string, now: string): (seq<Order>, Response) {
    if body.None? || Js.Field(body.value, "userId").None? then (orders, ErrorResponse(500, CreateFailed))
    else
      var userId := Js.Field(body.value, "userId").value;
      var items := Js.Field(body.value, "items").value;
      var totalPrice := Js.Field(body.value, "totalPrice").value;
      if !Js.Truthy(userId) || !Js.Truthy(items) || !Js.Truthy(totalPrice) then
        (orders, ErrorResponse(400, Required))
      else
        var o := Order(newId, userId, items, totalPrice, Pending, now);
        (orders + [o], OrderResponse(WithPlaceholder(o)))
  }

  /** A body that is not JSON, or is `null`, gives a 500; a falsy userId,
      items or totalPrice a 400. An accepted one appends exactly one
      "Pending" order at the end, with the given fields, and answers with
      it and the placeholder user; stored orders are never changed. */
  lemma PostSpec(orders: seq<Order>, body: Option<Js.Value>, newId: string, now: string)
    ensures var (after, resp) := Post(orders, body, newId, now);
      if body.None? || body.value.Null? || body.value.Undefined? then
        after == orders && resp == ErrorResponse(500, CreateFailed)
      else
        var userId := Js.Field(body.value, "userId").value;
        var items := Js.Field(body.value, "items").value;
        var totalPrice := Js.Field(body.value, "totalPrice").value;
        if !(Js.Truthy(userId) && Js.Truthy(items) && Js.Truthy(totalPrice)) then
          after == orders && resp == ErrorResponse(400, Required)
        else
          && |after| == |orders| + 1 && after[..|orders|] == orders
          && after[|orders|] == Order(newId, userId, items, totalPrice, "Pending", now)
          && resp == OrderResponse(OrderView(after[|orders|], Contact("Customer", "Customer Phone")))
  {
    var (after, resp) := Post(orders, body, newId, now);
    if |after| > |orders| {
      assert after[..|orders|] == orders;
    }
  }

  /** An empty array of items is truthy, so an order without items is
      accepted as long as the other two fields are set. */
  lemma EmptyItemsAccepted(orders: seq<Order>, newId: string, now: string)
    ensures var body := Js.Obj(map["userId" := Js.Str("u1"), "items" := Js.Arr([]), "totalPrice" := Js.Str("0.00")]);
      |Post(orders, Some(body), newId, now).0| == |orders| + 1
  {
    var body := Js.Obj(map["userId" := Js.Str("u1"), "items" := Js.Arr([]), "totalPrice" := Js.Str("0.00")]);
    assert Js.Field(body, "items") == Some(Js.Arr([]));
  }

  /** `GET`: every stored order, in storage order, with the placeholder user. */
  function List(orders: seq<Order>): (views: seq<OrderView>)
    ensures |views| == |orders|
    ensures forall i :: 0 <= i < |orders| ==> views[i] == OrderView(orders[i], Placeholder)
  {
    seq(|orders|, i requires 0 <= i < |orders| => WithPlaceholder(orders[i]))
  }

  /** A `GET` after an accepted `POST` lists the orders from before, then the new one. */
  lemma ListAfterPost(orders: seq<Order>, body: Option<Js.Value>, newId: string, now: string)
    ensures var (after, resp) := Post(orders, body, newId, now);
      resp.OrderResponse? ==> List(after) == List(orders) + [resp.view]
  {
    var (after, resp) := Post(orders, body, newId, now);
    if resp.OrderResponse? {
      PostSpec(orders, body, newId, now);
      assert List(after)[..|orders|] == List(orders);
      assert List(after) == List(after)[..|orders|] + [List(after)[|orders|]];
    }
  }

  /** `mockStorage.orders`, shared by both handlers. */
  class OrderStorage {
    var orders: seq<Order>

    constructor()
      ensures orders == []
    {
      orders := [];
    }

    /** The `POST` handler: validate, then push the new order. */
    method HandlePost(body: Option<Js.Value>, newId: string, now: string) returns (resp: Response)
      modifies this`orders
      ensures (orders, resp) == Post(old(orders), body, newId, now)
    {
      if body.None? {
        resp := ErrorResponse(500, CreateFailed);
        return;
      }
      var userId := Js.Field(body.value, "userId");
      var items := Js.Field(body.value, "items");
      var totalPrice := Js.Field(body.value, "totalPrice");
      if userId.None? {
        resp := ErrorResponse(500, CreateFailed);
        return;
      }
      if !Js.Truthy(userId.value) || !Js.Truthy(items.value) || !Js.Truthy(totalPrice.value) {
        resp := ErrorResponse(400, Required);
        return;
      }
      var newOrder := Order(newId, userId.value, items.value, totalPrice.value, Pending, now);
      orders := orders + [newOrder];
      resp := OrderResponse(WithPlaceholder(newOrder));
    }
  }
}
