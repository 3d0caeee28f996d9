/** The write channel of the printer: every `writeValueWithoutResponse` call is
    one entry of an append-only log. Whether the k-th write request over the
    link succeeds is an injected outcome, `accepts(k)`. */
module Transport {

  import opened EscPos

  datatype PrintError = NotConnected | WriteFailed

  datatype Outcome = Pass | Fail(error: PrintError)

  /** What the printer has received so far, and how many write requests were issued. */
  datatype Stream = Stream(log: seq<seq<byte>>, attempts: nat)

  datatype Delivery = Delivery(stream: Stream, outcome: Outcome)

  /** The reference behaviour of a chain of awaited writes: they are issued one
      at a time; without a characteristic the first one throws "Not connected
      to printer" before anything is sent; a rejected write throws, and the
      exception skips every later write. */
  function Deliver(accepts: nat -> bool, connected: bool, s: Stream, writes: seq<seq<byte>>): Delivery
    decreases |writes|
  {
    if writes == [] then Delivery(s, Pass)
    else if !connected then Delivery(s, Fail(NotConnected))
    else if !accepts(s.attempts) then Delivery(Stream(s.log, s.attempts + 1), Fail(WriteFailed))
    else Deliver(accepts, connected, Stream(s.log + [writes[0]], s.attempts + 1), writes[1..])
  }

  /** How many of `n` consecutive write requests, starting at request `start`,
      succeed before the first rejected one. */
  function Accepted(accepts: nat -> bool, start: nat, n: nat): (k: nat)
    ensures k <= n
    ensures forall j :: start <= j < start + k ==> accepts(j)
    ensures k < n ==> !accepts(start + k)
    decreases n
  {
    if n == 0 || !accepts(start) then 0 else 1 + Accepted(accepts, start + 1, n - 1)
  }

  /** The log only grows, by exactly the writes before the first rejected one;
      the chain passes exactly when every write got through; a link without a
      characteristic receives nothing. */
  lemma DeliverSpec(accepts: nat -> bool, connected: bool, s: Stream, writes: seq<seq<byte>>)
    ensures var d := Deliver(accepts, connected, s, writes);
      if writes == [] then d == Delivery(s, Pass)
      else if !connected then d == Delivery(s, Fail(NotConnected))
      else
        var k := Accepted(accepts, s.attempts, |writes|);
        && d.stream.log == s.log + writes[..k]
        && d.stream.attempts == s.attempts + (if k == |writes| then k else k + 1)
        && d.outcome == (if k == |writes| then Pass else Fail(WriteFailed))
  {
    if writes != [] && connected {
      DeliverConnected(accepts, s, writes);
    }
  }

  lemma {:induction false} DeliverConnected(accepts: nat -> bool, s: Stream, writes: seq<seq<byte>>)
    ensures var d := Deliver(accepts, true, s, writes);
      var k := Accepted(accepts, s.attempts, |writes|);
      && d.stream.log == s.log + writes[..k]
      && d.stream.attempts == s.attempts + (if k == |writes| then k else k + 1)
      && d.outcome == (if k == |writes| then Pass else Fail(WriteFailed))
    decreases |writes|
  {
    if writes == [] {
      assert s.log + writes[..0] == s.log;
    } else if !accepts(s.attempts) {
      assert Accepted(accepts, s.attempts, |writes|) == 0;
      assert s.log + writes[..0] == s.log;
    } else {
      var s' := Stream(s.log + [writes[0]], s.attempts + 1);
      var rest := writes[1..];
      DeliverConnected(accepts, s', rest);
      var k' := Accepted(accepts, s'.attempts, |rest|);
      assert Accepted(accepts, s.attempts, |writes|) == 1 + k';
      assert Deliver(accepts, true, s, writes) == Deliver(accepts, true, s', rest);
      assert writes[..1 + k'] == [writes[0]] + rest[..k'];
      assert s'.log + rest[..k'] == s.log + writes[..1 + k'];
    }
  }

  /** A chain of writes split in two: if the first part failed the second is
      never issued, otherwise it continues from where the first part left off. */
  lemma {:induction false} DeliverConcat(accepts: nat -> bool, connected: bool, s: Stream, a: seq<seq<byte>>, b: seq<seq<byte>>)
    ensures var d := Deliver(accepts, connected, s, a);
      Deliver(accepts, connected, s, a + b)
        == if d.outcome.Fail? then d else Deliver(accepts, connected, d.stream, b)
    decreases |a|
  {
    if a == [] {
      assert a + b == b;
    } else {
      assert (a + b)[0] == a[0];
      assert (a + b)[1..] == a[1..] + b;
      if connected && accepts(s.attempts) {
        DeliverConcat(accepts, connected, Stream(s.log + [a[0]], s.attempts + 1), a[1..], b);
      }
    }
  }
}
