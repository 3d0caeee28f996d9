/** The receipt printer client: a small state machine over three nullable
    references (device, GATT server, write characteristic) and an encoder of
    receipts into a stream of separate writes. */
module Printer {

  import opened Wrappers
  import opened EscPos
  import opened Transport
  import opened Receipt
  import Strings

  /** Opaque handles of the platform objects the client holds on to. */
  datatype Device = Device(id: string)
  datatype GattServer = GattServer(device: Device)
  datatype Characteristic = Characteristic(service: string, uuid: string)

  /** How far `connect()` gets: which of its awaited platform calls throws, or
      what each one produced when none does. */
  datatype ConnectOutcome =
    | DeviceRejected                                  // requestDevice rejected: cancelled or nothing matched
    | GattRejected(device: Device)                    // gatt.connect() rejected
    | NoGattServer(device: Device)                    // no gatt, or it gave nothing: "Failed to connect to GATT server"
    | ResolveRejected(device: Device, server: GattServer)  // getPrimaryService or getCharacteristic rejected
    | Linked(device: Device, server: GattServer, characteristic: Characteristic)

  class BluetoothPrinter {
    var device: Option<Device>
    var server: Option<GattServer>
    var characteristic: Option<Characteristic>
    /** Every write the printer has received, in arrival order. */
    var log: seq<seq<byte>>
    /** How many write requests have been issued over the link. */
    var attempts: nat
    /** Whether the k-th write request is accepted by the device. */
    const accepts: nat -> bool

    /** The client is connected exactly when it holds a write characteristic. */
    predicate Connected()
      reads this`characteristic
    {
      characteristic.Some?
    }

    function Received(): Stream
      reads this`log, this`attempts
    {
      Stream(log, attempts)
    }

    constructor (accepts: nat -> bool)
      ensures device == None && server == None && characteristic == None
      ensures log == [] && attempts == 0 && this.accepts == accepts
    {
      device, server, characteristic := None, None, None;
      log, attempts := [], 0;
      this.accepts := accepts;
    }

    /** `connect()`: each field is assigned as soon as its platform call returns,
        so a failure keeps whatever the earlier steps produced and leaves the
        characteristic as it was; the result is true only after a
        characteristic was obtained, and no failure escapes as an exception. */
    method Connect(outcome: ConnectOutcome) returns (ok: bool)
      modifies this`device, this`server, this`characteristic
      ensures ok <==> outcome.Linked?
      ensures ok ==> Connected() && characteristic == Some(outcome.characteristic)
      ensures device == if outcome.DeviceRejected? then old(device) else Some(outcome.device)
      ensures server == match outcome
        case DeviceRejected => old(server)
        case GattRejected(_) => old(server)
        case NoGattServer(_) => None
        case ResolveRejected(_, s) => Some(s)
        case Linked(_, s, _) => Some(s)
      ensures !outcome.Linked? ==> characteristic == old(characteristic)
    {
      if outcome.DeviceRejected? {
        return false;
      }
      device := Some(outcome.device);
      if outcome.GattRejected? {
        return false;
      }
      if outcome.NoGattServer? {
        server := None;
        return false;
      }
      server := Some(outcome.server);
      if outcome.ResolveRejected? {
        return false;
      }
      characteristic := Some(outcome.characteristic);
      ok := true;
    }

    /** `disconnect()`: drops the characteristic, the server (after closing it)
        and the device; calling it again changes nothing. */
    method Disconnect()
      modifies this`device, this`server, this`characteristic
      ensures device == None && server == None && characteristic == None
      ensures !Connected()
    {
      if characteristic.Some? {
        characteristic := None;
      }
      if server.Some? {
        server := None;
      }
      if device.Some? {
        device := None;
      }
    }

    /** `sendRaw(data)`: without a characteristic it fails with "Not connected
        to printer" and sends nothing; otherwise it issues one write. */
    method SendRaw(data: seq<byte>) returns (r: Outcome)
      modifies this`log, this`attempts
      ensures Delivery(Received(), r) == Deliver(accepts, Connected(), old(Received()), [data])
    {
      if characteristic.None? {
        return Fail(NotConnected);
      }
      if !accepts(attempts) {
        attempts := attempts + 1;
        return Fail(WriteFailed);
      }
      log := log + [data];
      attempts := attempts + 1;
      r := Pass;
    }

    /** `sendText(text)`: one write holding the UTF-8 encoding of the text. */
    method SendText(text: string) returns (r: Outcome)
      modifies this`log, this`attempts
      ensures Delivery(Received(), r) == Deliver(accepts, Connected(), old(Received()), [Encode(text)])
    {
      r := SendRaw(Encode(text));
    }

    /** `sendCommand(command)`: one write holding the command bytes. */
    method SendCommand(command: seq<byte>) returns (r: Outcome)
      modifies this`log, this`attempts
      ensures Delivery(Received(), r) == Deliver(accepts, Connected(), old(Received()), [command])
    {
      r := SendRaw(command);
    }

    /** `printLine(text, { bold, align })`: issues exactly the writes of
        `LineWrites`, in that order, stopping at the first one that throws. */
    method PrintLine(text: string, bold: bool, align: Option<Align>) returns (r: Outcome)
      modifies this`log, this`attempts
      ensures Delivery(Received(), r)
        == Deliver(accepts, Connected(), old(Received()), LineWrites(Line(text, bold, align)))
    {
      ghost var s0, c := Received(), Connected();
      var line := Line(text, bold, align);
      ghost var bo: seq<seq<byte>> := if bold then [BoldOn] else [];
      ghost var ao: seq<seq<byte>> := if align.Some? then [AlignCommand(align.value)] else [];
      ghost var tx: seq<seq<byte>> := [Encode(text + "\n")];
      ghost var bf: seq<seq<byte>> := if bold then [BoldOff] else [];
      ghost var af: seq<seq<byte>> := if align.Some? then [AlignLeft] else [];
      assert LineWrites(line) == bo + (ao + (tx + (bf + af)));
      r := Pass;
      if bold {
        r := SendCommand(BoldOn);
        DeliverConcat(accepts, c, s0, bo, ao + (tx + (bf + af)));
        if r.Fail? { return; }
      }
      ghost var s1 := Received();
      if align.Some? {
        r := SendCommand(AlignCommand(align.value));
        DeliverConcat(accepts, c, s1, ao, tx + (bf + af));
        if r.Fail? { return; }
      }
      ghost var s2 := Received();
      r := SendText(text + "\n");
      DeliverConcat(accepts, c, s2, tx, bf + af);
      if r.Fail? { return; }
      ghost var s3 := Received();
      if bold {
        r := SendCommand(BoldOff);
        DeliverConcat(accepts, c, s3, bf, af);
        if r.Fail? { return; }
      }
      if align.Some? {
        r := SendCommand(AlignLeft);
      }
    }

    /** Prints one line in front of `rest` and accounts for it: printing the
        line and then `rest` either fails on this line, or continues with `rest`. */
    method Emit(text: string, bold: bool, align: Option<Align>, ghost rest: seq<Line>, ghost c: bool)
      returns (r: Outcome)
      requires c == Connected()
      modifies this`log, this`attempts
      ensures c == Connected()
      ensures DeliverLines(accepts, c, old(Received()), [Line(text, bold, align)] + rest)
        == if r.Fail? then Delivery(Received(), r) else DeliverLines(accepts, c, Received(), rest)
    {
      r := PrintLine(text, bold, align);
      assert ([Line(text, bold, align)] + rest)[1..] == rest;
    }

    /** The header block of `printReceipt`: store, order and customer lines. */
    method PrintHeader(data: ReceiptData, ghost rest: seq<Line>, ghost c: bool) returns (r: Outcome)
      requires c == Connected()
      modifies this`log, this`attempts
      ensures c == Connected()
      ensures DeliverLines(accepts, c, old(Received()), Header(data) + rest)
        == if r.Fail? then Delivery(Received(), r) else DeliverLines(accepts, c, Received(), rest)
    {
      ghost var h13 := rest;
      ghost var h12 := [Line("ITEMS", true, None)] + h13;
      ghost var h11 := [Line("", false, None)] + h12;
      ghost var h10 := [Line("Phone: " + data.customerPhone, false, None)] + h11;
      ghost var h9 := [Line("Name: " + data.customerName, false, None)] + h10;
      ghost var h8 := [Line("CUSTOMER", true, None)] + h9;
      ghost var h7 := [Line("", false, None)] + h8;
      ghost var h6 := [Line("Date: " + data.orderDate, false, None)] + h7;
      ghost var h5 := [Line("Order ID: #" + Strings.IntToString(data.orderId), false, None)] + h6;
      ghost var h4 := [Line("", false, None)] + h5;
      ghost var h3 := [Line("ORDER RECEIPT", true, Some(Center))] + h4;
      ghost var h2 := [Line("", false, None)] + h3;
      ghost var h1 := [Line("Phone: " + data.storePhone, false, Some(Center))] + h2;
      ghost var h0 := [Line(data.storeName, true, Some(Center))] + h1;
      HeaderCons(data, rest);
      r := Emit(data.storeName, true, Some(Center), h1, c);
      if r.Fail? { return; }
      r := Emit("Phone: " + data.storePhone, false, Some(Center), h2, c);
      if r.Fail? { return; }
      r := Emit("", false, None, h3, c);
      if r.Fail? { return; }
      r := Emit("ORDER RECEIPT", true, Some(Center), h4, c);
      if r.Fail? { return; }
      r := Emit("", false, None, h5, c);
      if r.Fail? { return; }
      r := Emit("Order ID: #" + Strings.IntToString(data.orderId), false, None, h6, c);
      if r.Fail? { return; }
      r := Emit("Date: " + data.orderDate, false, None, h7, c);
      if r.Fail? { return; }
      r := Emit("", false, None, h8, c);
      if r.Fail? { return; }
      r := Emit("CUSTOMER", true, None, h9, c);
      if r.Fail? { return; }
      r := Emit("Name: " + data.customerName, false, None, h10, c);
      if r.Fail? { return; }
      r := Emit("Phone: " + data.customerPhone, false, None, h11, c);
      if r.Fail? { return; }
      r := Emit("", false, None, h12, c);
      if r.Fail? { return; }
      r := Emit("ITEMS", true, None, h13, c);
    }

    /** The item loop of `printReceipt`: two lines per item, in item order. */
    method PrintItems(items: seq<Item>, ghost rest: seq<Line>, ghost c: bool) returns (r: Outcome)
      requires c == Connected()
      modifies this`log, this`attempts
      ensures c == Connected()
      ensures DeliverLines(accepts, c, old(Received()), ItemLines(items) + rest)
        == if r.Fail? then Delivery(Received(), r) else DeliverLines(accepts, c, Received(), rest)
    {
      ghost var goal := DeliverLines(accepts, c, Received(), ItemLines(items) + rest);
      assert items[0..] == items;
      r := Pass;
      for i := 0 to |items|
        invariant c == Connected() && r.Pass?
        invariant goal == DeliverLines(accepts, c, Received(), ItemLines(items[i..]) + rest)
      {
        var item := items[i];
        ghost var more := ItemLines(items[i + 1..]) + rest;
        ItemLinesFrom(items, i, rest);
        r := Emit(Strings.IntToString(item.quantity) + " x " + item.name, false, None,
                  [Line(PriceLine(item), false, None)] + more, c);
        if r.Fail? { return; }
        r := Emit("     " + Strings.IntToString(item.quantity) + " @ $" + Strings.FormatCents(item.priceCents)
                  + " = $" + Strings.FormatCents(item.quantity * item.priceCents), false, None, more, c);
        if r.Fail? { return; }
      }
      assert items[|items|..] == [];
      assert ItemLines(items[|items|..]) + rest == rest;
    }

    /** The footer block of `printReceipt`: the total and the closing lines. */
    method PrintFooter(data: ReceiptData, ghost c: bool) returns (r: Outcome)
      requires c == Connected()
      modifies this`log, this`attempts
      ensures c == Connected()
      ensures DeliverLines(accepts, c, old(Received()), Footer(data)) == Delivery(Received(), r)
    {
      ghost var f6 := [];
      ghost var f5 := [Line("Please come again!", false, Some(Center))] + f6;
      ghost var f4 := [Line("Thank you for your order!", false, Some(Center))] + f5;
      ghost var f3 := [Line("", false, None)] + f4;
      ghost var f2 := [Line("$" + Strings.FormatCents(data.totalCents), true, Some(Right))] + f3;
      ghost var f1 := [Line("TOTAL", true, None)] + f2;
      ghost var f0 := [Line("", false, None)] + f1;
      FooterCons(data);
      r := Emit("", false, None, f1, c);
      if r.Fail? { return; }
      r := Emit("TOTAL", true, None, f2, c);
      if r.Fail? { return; }
      r := Emit("$" + Strings.FormatCents(data.totalCents), true, Some(Right), f3, c);
      if r.Fail? { return; }
      r := Emit("", false, None, f4, c);
      if r.Fail? { return; }
      r := Emit("Thank you for your order!", false, Some(Center), f5, c);
      if r.Fail? { return; }
      r := Emit("Please come again!", false, Some(Center), f6, c);
    }

    /** `printReceipt(data)`: issues exactly the writes of `ReceiptWrites(data)`,
        stopping at the first failed one; the result is true exactly when every
        write got through, and nothing is ever thrown. */
    method PrintReceipt(data: ReceiptData) returns (ok: bool)
      modifies this`log, this`attempts
      ensures var d := Deliver(accepts, Connected(), old(Received()), ReceiptWrites(data));
        Received() == d.stream && ok == d.outcome.Pass?
    {
      ghost var c := Connected();
      ghost var its, fs := ItemLines(data.items), Footer(data);
      ReceiptDelivery(accepts, c, Received(), data);
      assert Layout(data) == Header(data) + (its + fs);
      var r := SendCommand(Initialize);
      if r.Fail? { return false; }
      r := PrintHeader(data, its + fs, c);
      if r.Fail? { return false; }
      r := PrintItems(data.items, fs, c);
      if r.Fail? { return false; }
      r := PrintFooter(data, c);
      if r.Fail? { return false; }
      r := SendCommand(FullCut);
      ok := r.Pass?;
    }
  }
}
