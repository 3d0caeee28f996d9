/** The fixed receipt layout of the printer client, as the list of
    `printLine` calls it makes, and the writes each call issues. */
module Receipt {

  import opened Wrappers
  import opened EscPos
  import opened Transport
  import Strings

  /** One purchased line; prices are integer cents. */
  datatype Item = Item(name: string, quantity: int, priceCents: int)

  /** The argument of `printReceipt`. */
  datatype ReceiptData = ReceiptData(
    storeName: string,
    storePhone: string,
    orderId: int,
    orderDate: string,
    customerName: string,
    customerPhone: string,
    items: seq<Item>,
    totalCents: int)

  /** One `printLine(text, { bold, align })` call; a missing `bold` is false. */
  datatype Line = Line(text: string, bold: bool, align: Option<Align>)

  function Plain(text: string): Line { Line(text, false, None) }

  /** The writes of one `printLine` call, in the order it awaits them. */
  function LineWrites(l: Line): seq<seq<byte>> {
    (if l.bold then [BoldOn] else [])
    + (if l.align.Some? then [AlignCommand(l.align.value)] else [])
    + [Encode(l.text + "\n")]
    + (if l.bold then [BoldOff] else [])
    + (if l.align.Some? then [AlignLeft] else [])
  }

  /** Where each write of a line lands: formatting first, then the text with
      its terminator as a single write, then the resets, so bold-on comes right
      before the text when no alignment is set and bold-off right after it. */
  lemma LineLayout(l: Line)
    ensures var w := LineWrites(l);
      var t := (if l.bold then 1 else 0) + (if l.align.Some? then 1 else 0);
      && |w| == 2 * t + 1
      && w[t] == Encode(l.text + "\n")
      && (l.bold ==> w[0] == BoldOn && w[t + 1] == BoldOff)
      && (l.align.Some? ==> w[t - 1] == AlignCommand(l.align.value) && w[|w| - 1] == AlignLeft)
      && (!l.bold && l.align.None? ==> w == [Encode(l.text + "\n")])
  {
  }

  /** "<q> x <name>" */
  function ItemLine(it: Item): string {
    Strings.IntToString(it.quantity) + " x " + it.name
  }

  /** "     <q> @ $<price> = $<q * price>", both amounts with two fraction digits. */
  function PriceLine(it: Item): string {
    "     " + Strings.IntToString(it.quantity) + " @ $" + Strings.FormatCents(it.priceCents)
    + " = $" + Strings.FormatCents(it.quantity * it.priceCents)
  }

  /** The two lines the loop body prints for one item. */
  function ItemPair(it: Item): seq<Line> {
    [Plain(ItemLine(it)), Plain(PriceLine(it))]
  }

  function ItemLines(items: seq<Item>): seq<Line>
    decreases |items|
  {
    if items == [] then [] else ItemPair(items[0]) + ItemLines(items[1..])
  }

  function Header(r: ReceiptData): seq<Line> {
    [ Line(r.storeName, true, Some(Center)),
      Line("Phone: " + r.storePhone, false, Some(Center)),
      Plain(""),
      Line("ORDER RECEIPT", true, Some(Center)),
      Plain(""),
      Plain("Order ID: #" + Strings.IntToString(r.orderId)),
      Plain("Date: " + r.orderDate),
      Plain(""),
      Line("CUSTOMER", true, None),
      Plain("Name: " + r.customerName),
      Plain("Phone: " + r.customerPhone),
      Plain(""),
      Line("ITEMS", true, None) ]
  }

  function Footer(r: ReceiptData): seq<Line> {
    [ Plain(""),
      Line("TOTAL", true, None),
      Line("$" + Strings.FormatCents(r.totalCents), true, Some(Right)),
      Plain(""),
      Line("Thank you for your order!", false, Some(Center)),
      Line("Please come again!", false, Some(Center)) ]
  }

  /** Every `printLine` call of `printReceipt`, in order. */
  function Layout(r: ReceiptData): seq<Line> {
    Header(r) + ItemLines(r.items) + Footer(r)
  }

  function LinesWrites(ls: seq<Line>): seq<seq<byte>>
    decreases |ls|
  {
    if ls == [] then [] else LineWrites(ls[0]) + LinesWrites(ls[1..])
  }

  /** Every write of a complete `printReceipt` run: initialize, the lines, the cut. */
  function ReceiptWrites(r: ReceiptData): seq<seq<byte>> {
    [Initialize] + LinesWrites(Layout(r)) + [FullCut]
  }

  lemma {:induction false} ItemLinesLength(items: seq<Item>)
    ensures |ItemLines(items)| == 2 * |items|
    decreases |items|
  {
    if items != [] {
      ItemLinesLength(items[1..]);
    }
  }

  /** Item `i` gives lines `2i` and `2i + 1` of the item lines. */
  lemma {:induction false} ItemLinesAt(items: seq<Item>, i: nat)
    requires i < |items|
    ensures |ItemLines(items)| == 2 * |items|
    ensures ItemLines(items)[2 * i] == Plain(ItemLine(items[i]))
    ensures ItemLines(items)[2 * i + 1] == Plain(PriceLine(items[i]))
    decreases |items|
  {
    var tail := items[1..];
    ItemLinesLength(tail);
    var pair, rest := ItemPair(items[0]), ItemLines(tail);
    assert ItemLines(items) == pair + rest;
    if i > 0 {
      ItemLinesAt(tail, i - 1);
      assert tail[i - 1] == items[i];
    }
  }

  /** For N items the receipt makes 19 + 2N `printLine` calls: the item lines sit
      in item order after the 13 header lines, each item as its quantity-name
      line followed by its price line, and the header's second line is the
      store phone. */
  lemma ReceiptLayout(r: ReceiptData)
    ensures |Layout(r)| == 19 + 2 * |r.items|
    ensures Layout(r)[1] == Line("Phone: " + r.storePhone, false, Some(Center))
    ensures forall i :: 0 <= i < |r.items| ==>
      Layout(r)[13 + 2 * i] == Plain(ItemLine(r.items[i]))
      && Layout(r)[14 + 2 * i] == Plain(PriceLine(r.items[i]))
  {
    ItemLinesLength(r.items);
    var h, il, f := Header(r), ItemLines(r.items), Footer(r);
    assert |h| == 13 && |f| == 6;
    assert h[1] == Line("Phone: " + r.storePhone, false, Some(Center));
    var l := Layout(r);
    assert l == h + il + f;
    forall i | 0 <= i < |r.items|
      ensures l[13 + 2 * i] == Plain(ItemLine(r.items[i]))
      ensures l[14 + 2 * i] == Plain(PriceLine(r.items[i]))
    {
      ItemLinesAt(r.items, i);
      MiddleAt(h, il, f, 2 * i);
      MiddleAt(h, il, f, 2 * i + 1);
    }
  }

  lemma MiddleAt<T>(a: seq<T>, b: seq<T>, c: seq<T>, k: nat)
    requires k < |b|
    ensures (a + b + c)[|a| + k] == b[k]
  {
  }

  /** The header, line by line, in front of whatever follows it. */
  lemma HeaderCons(r: ReceiptData, tail: seq<Line>)
    ensures Header(r) + tail ==
      [Line(r.storeName, true, Some(Center))] +
      ([Line("Phone: " + r.storePhone, false, Some(Center))] +
      ([Line("", false, None)] +
      ([Line("ORDER RECEIPT", true, Some(Center))] +
      ([Line("", false, None)] +
      ([Line("Order ID: #" + Strings.IntToString(r.orderId), false, None)] +
      ([Line("Date: " + r.orderDate, false, None)] +
      ([Line("", false, None)] +
      ([Line("CUSTOMER", true, None)] +
      ([Line("Name: " + r.customerName, false, None)] +
      ([Line("Phone: " + r.customerPhone, false, None)] +
      ([Line("", false, None)] +
      ([Line("ITEMS", true, None)] + tail))))))))))))
  {
  }

  /** The footer, line by line. */
  lemma FooterCons(r: ReceiptData)
    ensures Footer(r) ==
      [Line("", false, None)] +
      ([Line("TOTAL", true, None)] +
      ([Line("$" + Strings.FormatCents(r.totalCents), true, Some(Right))] +
      ([Line("", false, None)] +
      ([Line("Thank you for your order!", false, Some(Center))] +
      ([Line("Please come again!", false, Some(Center))] + [])))))
  {
  }

  /** Printing lines one `printLine` call at a time: each call's writes are
      issued only when every earlier call got all of its writes through. */
  function DeliverLines(accepts: nat -> bool, connected: bool, s: Stream, ls: seq<Line>): Delivery
    decreases |ls|
  {
    if ls == [] then Delivery(s, Pass)
    else
      var d := Deliver(accepts, connected, s, LineWrites(ls[0]));
      if d.outcome.Fail? then d else DeliverLines(accepts, connected, d.stream, ls[1..])
  }

  /** Lines split in two: if a call of the first part failed, nothing of the
      second is printed, otherwise it continues where the first part left off. */
  lemma {:induction false} DeliverLinesConcat(accepts: nat -> bool, connected: bool, s: Stream, a: seq<Line>, b: seq<Line>)
    ensures var d := DeliverLines(accepts, connected, s, a);
      DeliverLines(accepts, connected, s, a + b)
        == if d.outcome.Fail? then d else DeliverLines(accepts, connected, d.stream, b)
    decreases |a|
  {
    if a == [] {
      assert a + b == b;
    } else {
      assert (a + b)[0] == a[0];
      assert (a + b)[1..] == a[1..] + b;
      var d := Deliver(accepts, connected, s, LineWrites(a[0]));
      if d.outcome.Pass? {
        DeliverLinesConcat(accepts, connected, d.stream, a[1..], b);
      }
    }
  }

  /** The item lines from item `i` on, in front of `rest`: the two lines of
      item `i`, then the lines of the later items. */
  lemma ItemLinesFrom(items: seq<Item>, i: nat, rest: seq<Line>)
    requires i < |items|
    ensures ItemLines(items[i..]) + rest ==
      [Line(ItemLine(items[i]), false, None)] +
      ([Line(PriceLine(items[i]), false, None)] + (ItemLines(items[i + 1..]) + rest))
  {
    assert items[i..][1..] == items[i + 1..];
    PairCons(Plain(ItemLine(items[i])), Plain(PriceLine(items[i])), ItemLines(items[i + 1..]), rest);
  }

  lemma PairCons<T>(a: T, b: T, xs: seq<T>, ys: seq<T>)
    ensures [a, b] + xs + ys == [a] + ([b] + (xs + ys))
  {
  }

  /** Printing the lines one call at a time is the chain of all their writes. */
  lemma {:induction false} DeliverLinesWrites(accepts: nat -> bool, connected: bool, s: Stream, ls: seq<Line>)
    ensures DeliverLines(accepts, connected, s, ls) == Deliver(accepts, connected, s, LinesWrites(ls))
    decreases |ls|
  {
    if ls != [] {
      var d := Deliver(accepts, connected, s, LineWrites(ls[0]));
      DeliverConcat(accepts, connected, s, LineWrites(ls[0]), LinesWrites(ls[1..]));
      DeliverLinesWrites(accepts, connected, d.stream, ls[1..]);
    }
  }

  /** A receipt run, stage by stage: initialize, the lines, then the cut. */
  lemma ReceiptDelivery(accepts: nat -> bool, connected: bool, s: Stream, r: ReceiptData)
    ensures var d0 := Deliver(accepts, connected, s, [Initialize]);
      var d1 := DeliverLines(accepts, connected, d0.stream, Layout(r));
      Deliver(accepts, connected, s, ReceiptWrites(r))
        == if d0.outcome.Fail? then d0
           else if d1.outcome.Fail? then d1
           else Deliver(accepts, connected, d1.stream, [FullCut])
  {
    var lw := LinesWrites(Layout(r));
    assert ReceiptWrites(r) == [Initialize] + (lw + [FullCut]);
    DeliverConcat(accepts, connected, s, [Initialize], lw + [FullCut]);
    var d0 := Deliver(accepts, connected, s, [Initialize]);
    DeliverConcat(accepts, connected, d0.stream, lw, [FullCut]);
    DeliverLinesWrites(accepts, connected, d0.stream, Layout(r));
  }

  /** The stream opens with ESC @ and closes with GS V 0. */
  lemma ReceiptBrackets(r: ReceiptData)
    ensures var w := ReceiptWrites(r); |w| >= 2 && w[0] == Initialize && w[|w| - 1] == FullCut
  {
  }

  lemma {:induction false} LinesWritesAppend(a: seq<Line>, b: seq<Line>)
    ensures LinesWrites(a + b) == LinesWrites(a) + LinesWrites(b)
    decreases |a|
  {
    if a == [] {
      assert a + b == b;
    } else {
      assert (a + b)[0] == a[0];
      assert (a + b)[1..] == a[1..] + b;
      LinesWritesAppend(a[1..], b);
    }
  }
}
