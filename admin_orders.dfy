/** The admin orders page: the local status update after a successful PUT,
    the status progression buttons, the status badge, and the receipt
    printing workflow with its per-order "printing" flag. Server answers,
    the printer link and the device's acceptance of writes are inputs. */
module AdminOrders {

  import opened Wrappers
  import Lists
  import Transport
  import EscPos
  import Receipt
  import Printer

  /** An order as the page lists it. */
  datatype AdminOrder = AdminOrder(id: int, createdAt: string, status: string, totalPrice: string,
                                   userName: string, userPhone: string)

  const Pending := "Pending"
  const ReadyForPickup := "Ready for Pickup"
  const Completed := "Completed"

  /** `prevOrders.map(order => order.id === orderId ? { ...order, status } : order)` */
  function UpdateStatus(orders: seq<AdminOrder>, orderId: int, status: string): seq<AdminOrder> {
    Lists.MapIf(orders, (o: AdminOrder) => o.id == orderId, (o: AdminOrder) => o.(status := status))
  }

  /** Only the orders with that id change, and only in their status; the
      list keeps its length and order. Doing it twice is doing it once. */
  lemma UpdateStatusSpec(orders: seq<AdminOrder>, orderId: int, status: string)
    ensures var r := UpdateStatus(orders, orderId, status);
      && |r| == |orders|
      && (forall i :: 0 <= i < |orders| ==> r[i].id == orders[i].id)
      && (forall i :: 0 <= i < |orders| && orders[i].id == orderId ==> r[i] == orders[i].(status := status))
      && (forall i :: 0 <= i < |orders| && orders[i].id != orderId ==> r[i] == orders[i])
      && UpdateStatus(r, orderId, status) == r
  {
    var r := UpdateStatus(orders, orderId, status);
    var r2 := UpdateStatus(r, orderId, status);
    assert forall i :: 0 <= i < |r| ==> r2[i] == r[i];
  }

  /** The status buttons shown for an order: "Mark Ready" on a pending one,
      "Mark Completed" on one ready for pickup, nothing otherwise. */
  function Transitions(status: string): seq<string> {
    if status == Pending then [ReadyForPickup]
    else if status == ReadyForPickup then [Completed]
    else []
  }

  /** Position of a status along the progression; other statuses have none. */
  function Stage(status: string): Option<nat> {
    if status == Pending then Some(0)
    else if status == ReadyForPickup then Some(1)
    else if status == Completed then Some(2)
    else None
  }

  /** Every offered transition moves one stage forward, so an order can
      never be sent back; completed orders and unknown statuses offer none,
      and there is never more than one button. */
  lemma TransitionsForward(status: string)
    ensures |Transitions(status)| <= 1
    ensures forall t :: t in Transitions(status) ==>
      Stage(status).Some? && Stage(t).Some? && Stage(t).value == Stage(status).value + 1
    ensures Transitions(status) == [] <==> (Stage(status).None? || Stage(status) == Some(2))
  {
  }

  datatype BadgeStyle = Yellow | Blue | Green | Secondary

  datatype Badge = Badge(style: BadgeStyle, caption: string)

  /** `getStatusBadge` */
  function StatusBadge(status: string): (b: Badge)
    ensures b.style == Secondary <==> Stage(status).None?
    ensures b.style == Secondary ==> b.caption == status
    ensures b.caption == (if status == ReadyForPickup then "Ready" else status)
  {
    if status == Pending then Badge(Yellow, "Pending")
    else if status == ReadyForPickup then Badge(Blue, "Ready")
    else if status == Completed then Badge(Green, "Completed")
    else Badge(Secondary, status)
  }

  /** The print button: disabled without Web Bluetooth or while that
      order's job runs; a missing flag reads as not printing. */
  predicate PrintDisabled(supported: bool, isPrinting: map<int, bool>, orderId: int) {
    !supported || (orderId in isPrinting && isPrinting[orderId])
  }

  /** Without Web Bluetooth every print button is disabled. With it, raising
      an order's flag disables that order's button, lowering it enables the
      button again, and neither touches the buttons of other orders. */
  lemma PrintDisabledRule(supported: bool, isPrinting: map<int, bool>, orderId: int, other: int, v: bool)
    requires other != orderId
    ensures !supported ==> PrintDisabled(supported, isPrinting, orderId)
    ensures supported ==> PrintDisabled(supported, isPrinting[orderId := true], orderId)
    ensures supported ==> !PrintDisabled(supported, isPrinting[orderId := false], orderId)
    ensures PrintDisabled(supported, isPrinting[orderId := v], other) == PrintDisabled(supported, isPrinting, other)
  {
  }

  /** One item of the order details fetched for printing. */
  datatype FetchedItem = FetchedItem(productName: string, quantity: int, priceAtPurchaseCents: int)

  /** The order details `GET /api/orders/<id>` answers with. */
  datatype FetchedOrder = FetchedOrder(id: int, userName: string, userPhone: string,
                                       orderItems: seq<FetchedItem>, totalPriceCents: int)

  const StoreName := "Grocery Store"
  const StorePhone := "(555) 123-4567"

  function ReceiptItem(it: FetchedItem): Receipt.Item {
    Receipt.Item(it.productName, it.quantity, it.priceAtPurchaseCents)
  }

  /** The receipt data built from the fetched order; `orderDate` is the
      creation time as `toLocaleString` renders it. */
  function ReceiptFor(o: FetchedOrder, orderDate: string): (r: Receipt.ReceiptData)
    ensures r.storeName == "Grocery Store" && r.storePhone == "(555) 123-4567"
    ensures r.orderId == o.id && r.orderDate == orderDate
    ensures r.customerName == o.userName && r.customerPhone == o.userPhone && r.totalCents == o.totalPriceCents
    ensures |r.items| == |o.orderItems|
    ensures forall i :: 0 <= i < |o.orderItems| ==> r.items[i] == ReceiptItem(o.orderItems[i])
  {
    Receipt.ReceiptData(StoreName, StorePhone, o.id, orderDate, o.userName, o.userPhone,
      seq(|o.orderItems|, i requires 0 <= i < |o.orderItems| => ReceiptItem(o.orderItems[i])),
      o.totalPriceCents)
  }

  /** The printed receipt lists the order's items one to one and in order:
      item i gives lines 13 + 2i and 14 + 2i, with its product name,
      quantity and purchase price; the second line is the store phone. */
  lemma ReceiptForLayout(o: FetchedOrder, orderDate: string)
    ensures var l := Receipt.Layout(ReceiptFor(o, orderDate));
      && |l| == 19 + 2 * |o.orderItems|
      && l[1] == Receipt.Line("Phone: " + StorePhone, false, Some(EscPos.Center))
      && forall i :: 0 <= i < |o.orderItems| ==>
           l[13 + 2 * i] == Receipt.Plain(Receipt.ItemLine(ReceiptItem(o.orderItems[i])))
           && l[14 + 2 * i] == Receipt.Plain(Receipt.PriceLine(ReceiptItem(o.orderItems[i])))
  {
    var r := ReceiptFor(o, orderDate);
    Receipt.ReceiptLayout(r);
    var l := Receipt.Layout(r);
    forall i | 0 <= i < |o.orderItems|
      ensures l[13 + 2 * i] == Receipt.Plain(Receipt.ItemLine(ReceiptItem(o.orderItems[i])))
      ensures l[14 + 2 * i] == Receipt.Plain(Receipt.PriceLine(ReceiptItem(o.orderItems[i])))
    {
      assert r.items[i] == ReceiptItem(o.orderItems[i]);
    }
  }

  /** What the workflow does, in order. */
  datatype Step =
    | NotSupportedToast
    | SetPrinting(orderId: int, value: bool)
    | FetchDetails(orderId: int)
    | ConnectPrinter
    | PrintOnPrinter
    | DisconnectPrinter
    | SuccessToast
    | ErrorToast

  /** The reference sequence of steps of one `printReceipt(orderId)` call,
      given whether the details came back, whether the printer connected and
      whether the receipt printed. */
  function JobSteps(supported: bool, orderId: int, fetched: bool, connected: bool, printed: bool): seq<Step> {
    if !supported then [NotSupportedToast]
    else
      var body := if fetched then PrinterSteps(connected, printed) else [ErrorToast];
      [SetPrinting(orderId, true), FetchDetails(orderId)] + body + [SetPrinting(orderId, false)]
  }

  /** The steps between fetching the details and lowering the flag. */
  function PrinterSteps(connected: bool, printed: bool): seq<Step> {
    var printing := if printed then [SuccessToast, DisconnectPrinter] else [ErrorToast];
    [ConnectPrinter] + (if connected then [PrintOnPrinter] + printing else [ErrorToast])
  }

  /** Without Web Bluetooth nothing is fetched, connected or flagged. With it,
      the job raises the order's flag first and lowers it last, whatever
      happens in between; the printer is disconnected exactly when the
      receipt printed, after the success message. */
  lemma JobStepsSpec(supported: bool, orderId: int, fetched: bool, connected: bool, printed: bool)
    ensures var s := JobSteps(supported, orderId, fetched, connected, printed);
      && (!supported ==> s == [NotSupportedToast])
      && (supported ==> |s| >= 3 && s[0] == SetPrinting(orderId, true) && s[|s| - 1] == SetPrinting(orderId, false)
                        && forall i :: 0 < i < |s| - 1 ==> !s[i].SetPrinting?)
      && (DisconnectPrinter in s <==> supported && fetched && connected && printed)
      && (SuccessToast in s <==> supported && fetched && connected && printed)
      && (ConnectPrinter in s <==> supported && fetched)
      && (DisconnectPrinter in s ==> s[|s| - 2] == DisconnectPrinter && s[|s| - 3] == SuccessToast)
  {
  }

  /** Whether a receipt run on a freshly connected printer gets through. */
  function Printed(accepts: nat -> bool, data: Receipt.ReceiptData): bool {
    Transport.Deliver(accepts, true, Transport.Stream([], 0), Receipt.ReceiptWrites(data)).outcome.Pass?
  }

  class AdminOrdersPage {
    var orders: seq<AdminOrder>
    var isPrinting: map<int, bool>
    const bluetoothSupported: bool
    /** The page's visible actions so far. */
    var steps: seq<Step>

    constructor (bluetoothSupported: bool)
      ensures orders == [] && isPrinting == map[] && steps == []
      ensures this.bluetoothSupported == bluetoothSupported
    {
      orders := [];
      isPrinting := map[];
      steps := [];
      this.bluetoothSupported := bluetoothSupported;
    }

    /** `updateOrderStatus` after the PUT: `updated` is the status the server
        answered with, `None` when the request failed. */
    method ApplyStatusUpdate(orderId: int, updated: Option<string>)
      modifies this`orders
      ensures updated.Some? ==> orders == UpdateStatus(old(orders), orderId, updated.value)
      ensures updated.None? ==> orders == old(orders)
    {
      if updated.Some? {
        orders := UpdateStatus(orders, orderId, updated.value);
      }
    }

    /** `printReceipt(orderId)`: `fetched` is the order details, `None` when
        the request failed; `link` is how far `connect()` gets;
        `accepts` says which writes the device takes. The printer the job
        created, if any, is returned so that its final state can be read. */
    method PrintReceipt(orderId: int, fetched: Option<FetchedOrder>, orderDate: string,
                        link: Printer.ConnectOutcome, accepts: nat -> bool)
      returns (printer: Printer.BluetoothPrinter?)
      modifies this`isPrinting, this`steps
      ensures !bluetoothSupported ==> isPrinting == old(isPrinting) && printer == null
      ensures bluetoothSupported ==> isPrinting == old(isPrinting)[orderId := false]
      ensures printer != null ==> fresh(printer) && fetched.Some?
      ensures printer == null <==> !bluetoothSupported || fetched.None?
      ensures steps == old(steps) + JobSteps(bluetoothSupported, orderId, fetched.Some?, link.Linked?,
                                              fetched.Some? && link.Linked? && Printed(accepts, ReceiptFor(fetched.value, orderDate)))
      ensures printer != null && link.Linked? ==>
                printer.log == Transport.Deliver(accepts, true, Transport.Stream([], 0),
                                                 Receipt.ReceiptWrites(ReceiptFor(fetched.value, orderDate))).stream.log
      ensures printer != null ==>
                (printer.Connected() <==> link.Linked? && !Printed(accepts, ReceiptFor(fetched.value, orderDate)))
      ensures printer != null && !link.Linked? ==> printer.log == []
    {
      printer := null;
      if !bluetoothSupported {
        steps := steps + [NotSupportedToast];
        return;
      }
      isPrinting := isPrinting[orderId := true];
      var body: seq<Step>;
      if fetched.None? {
        body := [ErrorToast];
      } else {
        printer, body := RunPrinter(ReceiptFor(fetched.value, orderDate), link, accepts);
      }
      isPrinting := isPrinting[orderId := false];
      steps := steps + ([SetPrinting(orderId, true), FetchDetails(orderId)] + body + [SetPrinting(orderId, false)]);
    }

    /** The part of the job that drives a new printer: connect, print, and
        disconnect only after a successful print. */
    method RunPrinter(data: Receipt.ReceiptData, link: Printer.ConnectOutcome, accepts: nat -> bool)
      returns (printer: Printer.BluetoothPrinter, done: seq<Step>)
      ensures fresh(printer)
      ensures done == PrinterSteps(link.Linked?, link.Linked? && Printed(accepts, data))
      ensures link.Linked? ==>
                printer.log == Transport.Deliver(accepts, true, Transport.Stream([], 0), Receipt.ReceiptWrites(data)).stream.log
      ensures printer.Connected() <==> link.Linked? && !Printed(accepts, data)
      ensures !link.Linked? ==> printer.log == []
    {
      printer := new Printer.BluetoothPrinter(accepts);
      done := [ConnectPrinter];
      var connected := printer.Connect(link);
      if !connected {
        done := done + [ErrorToast];
        return;
      }
      done := done + [PrintOnPrinter];
      var success := printer.PrintReceipt(data);
      if success {
        done := done + [SuccessToast, DisconnectPrinter];
        printer.Disconnect();
      } else {
        done := done + [ErrorToast];
      }
    }
  }
}
