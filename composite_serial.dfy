// The Arduino-style `USBCompositeSerial` stream over the CDC queues of the
// composite driver.  The object has no fields of its own: every operation
// works on the driver's queues and line state.
module CompositeSerial {
  import opened Prelude
  import opened ByteRing
  import opened UsbComposite

  /** Bytes per IN or OUT packet of the CDC data endpoints. */
  const TX_EPSIZE: nat := 0x40
  const RX_EPSIZE: nat := 0x40

  /** `isConnected`: the device is attached and configured, and the host raised DTR. */
  function IsConnected(c: Composite, linkUp: bool): (r: bool)
    reads c
    ensures r <==> linkUp && And8(c.lineDtrRts, CONTROL_LINE_DTR) != 0
  {
    linkUp && c.GetDtr() != 0
  }

  /** `available`: the number of received bytes not yet read. */
  function Available(c: Composite): (n: nat)
    requires c.Valid()
    reads c, c.vcomTx, c.vcomRx, c.hidTx, c.vcomRx.buf
    ensures n == |c.vcomRx.Contents()| && n < SIZE
  {
    c.vcomRx.Count()
  }

  /** `pending`: the number of queued bytes not yet sent, through a uint8 result. */
  function Pending(c: Composite): (n: byte)
    requires c.Valid()
    reads c, c.vcomTx, c.vcomRx, c.hidTx, c.vcomTx.buf
    ensures n == |c.vcomTx.Contents()|
  {
    U8(c.vcomTx.Count())
  }

  /**
   * `write(buf, len)`: nothing when disconnected or `buf` is NULL; otherwise
   * it offers the rest of `src` to `composite_cdcacm_tx` until all of it
   * has been accepted.  Each call hands bytes to the endpoint as
   * `Ring.Transmit` says, `busy` telling whether an IN transfer is in
   * flight at the first one; when the queue is full the endpoint's
   * transmit-complete interrupt takes the next packet out of it.  `sent` is
   * what left the queue.  The result is the constant 0 the source returns.
   */
  method Write(c: Composite, src: Option<seq<byte>>, linkUp: bool, busy: bool) returns (n: nat, sent: seq<byte>)
    requires c.Valid()
    modifies c.vcomTx, c.vcomTx.buf
    ensures c.Valid() && n == 0
    ensures !IsConnected(c, linkUp) || src.None? ==> sent == [] && c.vcomTx.Contents() == old(c.vcomTx.Contents())
    ensures IsConnected(c, linkUp) && src.Some? ==> sent + c.vcomTx.Contents() == old(c.vcomTx.Contents()) + src.value
  {
    n := 0;
    sent := [];
    if !IsConnected(c, linkUp) || src.None? {
      return;
    }
    var s := src.value;
    ghost var q0 := c.vcomTx.Contents();
    var txed := 0;
    var inFlight := busy;
    while txed < |s|
      invariant 0 <= txed <= |s| && c.Valid()
      invariant sent + c.vcomTx.Contents() == q0 + s[..txed]
      decreases |s| - txed, c.vcomTx.Count()
    {
      var k, packet;
      k, packet, inFlight := WriteRound(c, s, txed, inFlight, sent, q0);
      sent := sent + packet;
      txed := txed + k;
    }
    assert s[..|s|] == s;
  }

  /**
   * One round of the `write(buf, len)` loop: offer `s[txed..]`; when none of
   * it fits, the transmit-complete interrupt sends the next packet, and an
   * IN transfer is then in flight.
   */
  method WriteRound(c: Composite, s: seq<byte>, txed: nat, busy: bool, ghost sent: seq<byte>, ghost q0: seq<byte>)
    returns (k: nat, packet: seq<byte>, busyAfter: bool)
    requires c.Valid() && txed < |s|
    requires sent + c.vcomTx.Contents() == q0 + s[..txed]
    modifies c.vcomTx, c.vcomTx.buf
    ensures c.Valid() && txed + k <= |s|
    ensures (sent + packet) + c.vcomTx.Contents() == q0 + s[..txed + k]
    ensures k > 0 || c.vcomTx.Count() < old(c.vcomTx.Count())
  {
    ghost var before := c.vcomTx.Contents();
    k, packet, busyAfter := c.vcomTx.Transmit(s[txed..], TX_EPSIZE, busy);
    Regrouped(sent, before, q0, s, txed, k, packet, c.vcomTx.Contents());
    if k == 0 {
      ghost var full := c.vcomTx.Contents();
      packet := c.vcomTx.Drain(TX_EPSIZE);
      busyAfter := true;
      assert (sent + packet) + c.vcomTx.Contents() == sent + full;
    }
  }

  /** What a round hands over plus what stays queued is what was sent and queued before, plus `k` more bytes of `s`. */
  lemma Regrouped(sent: seq<byte>, before: seq<byte>, q0: seq<byte>, s: seq<byte>, txed: nat, k: nat, packet: seq<byte>, after: seq<byte>)
    requires txed + k <= |s| && sent + before == q0 + s[..txed]
    requires packet + after == before + s[txed..][..k]
    ensures (sent + packet) + after == q0 + s[..txed + k]
  {
    assert s[..txed] + s[txed..][..k] == s[..txed + k];
    calc {
      (sent + packet) + after;
      sent + (before + s[txed..][..k]);
      (q0 + s[..txed]) + s[txed..][..k];
    }
  }

  /** `write(ch)`: a one-byte `write`, returning 0. */
  method WriteByte(c: Composite, ch: byte, linkUp: bool, busy: bool) returns (n: nat, sent: seq<byte>)
    requires c.Valid()
    modifies c.vcomTx, c.vcomTx.buf
    ensures c.Valid() && n == 0
    ensures !IsConnected(c, linkUp) ==> sent == [] && c.vcomTx.Contents() == old(c.vcomTx.Contents())
    ensures IsConnected(c, linkUp) ==> sent + c.vcomTx.Contents() == old(c.vcomTx.Contents()) + [ch]
  {
    n, sent := Write(c, Some([ch]), linkUp, busy);
  }

  /**
   * One round of the `read(buf, len)` loop: dequeue what is there into
   * `out[rxed..]`; when nothing was there, the next packet of `host`
   * arrives instead.
   */
  method ReadRound(c: Composite, out: array<byte>, len: nat, host: seq<byte>, rxed: nat, used: nat, ghost q0: seq<byte>)
    returns (k: nat, p: nat)
    requires c.Valid() && out != c.vcomRx.buf && len <= out.Length
    requires rxed < len && used <= |host| && len - rxed <= c.vcomRx.Count() + |host| - used
    requires out[..rxed] + c.vcomRx.Contents() == q0 + host[..used]
    modifies c.vcomRx, c.vcomRx.buf, out
    ensures c.Valid() && rxed + k <= len && used + p <= |host|
    ensures len - rxed - k <= c.vcomRx.Count() + |host| - used - p
    ensures out[..rxed + k] + c.vcomRx.Contents() == q0 + host[..used + p]
    ensures out[len..] == old(out[len..])
    ensures k == Min(len - rxed, old(c.vcomRx.Count()))
    ensures k > 0 || c.vcomRx.Count() > 0
  {
    k := Take(c, out, len, rxed, q0 + host[..used]);
    p := 0;
    if k == 0 {
      assert c.vcomRx.Contents() == [];
      assert out[..rxed] == q0 + host[..used];
      p := Receive(c, host, used);
      Regroup(out[..rxed], q0, host, used, p);
    }
  }

  lemma Regroup(a: seq<byte>, q0: seq<byte>, h: seq<byte>, used: nat, p: nat)
    requires used + p <= |h| && a == q0 + h[..used]
    ensures a + h[used..used + p] == q0 + h[..used + p]
  {
    assert h[..used] + h[used..used + p] == h[..used + p];
  }

  /** Dequeue into `out[rxed..len]` what the queue holds, keeping `out[..rxed]` + queue intact. */
  method Take(c: Composite, out: array<byte>, len: nat, rxed: nat, ghost whole: seq<byte>) returns (k: nat)
    requires c.Valid() && out != c.vcomRx.buf && len <= out.Length && rxed < len
    requires out[..rxed] + c.vcomRx.Contents() == whole
    modifies c.vcomRx, out
    ensures c.Valid() && k == Min(len - rxed, old(c.vcomRx.Count()))
    ensures c.vcomRx.Count() == old(c.vcomRx.Count()) - k
    ensures out[..rxed + k] + c.vcomRx.Contents() == whole
    ensures out[len..] == old(out[len..])
  {
    ghost var before := c.vcomRx.Contents();
    ghost var prefix := out[..rxed];
    k := c.vcomRx.Read(out, rxed, len - rxed);
    assert out[..rxed + k] == prefix + before[..k] by {
      assert out[..rxed + k] == out[..rxed] + out[rxed..rxed + k];
    }
    assert before[..k] + before[k..] == before;
  }

  /**
   * The receive interrupt (`vcomDataRxCb`) storing the next OUT packet, the
   * next at most 64 bytes of `host` from `used` on, into an empty queue.
   */
  method Receive(c: Composite, host: seq<byte>, used: nat) returns (p: nat)
    requires c.Valid() && c.vcomRx.Count() == 0 && used < |host|
    modifies c.vcomRx, c.vcomRx.buf
    ensures c.Valid() && p == Min(RX_EPSIZE, |host| - used) && p > 0
    ensures c.vcomRx.Contents() == old(c.vcomRx.Contents()) + host[used..used + p]
  {
    p := Min(RX_EPSIZE, |host| - used);
    var stored := c.vcomRx.Write(host[used..used + p]);
    assert host[used..used + p][..stored] == host[used..used + p];
  }

  /**
   * `read(buf, len)`: dequeue into `out` until exactly `len` bytes have been
   * read.  Whenever the queue runs dry the endpoint's receive interrupt
   * stores the next packet (at most 64 bytes) of `host`, the bytes the host
   * sends; `used` is how many of them arrived during the call.
   */
  method Read(c: Composite, out: array<byte>, len: nat, host: seq<byte>) returns (rxed: nat, used: nat)
    requires c.Valid() && out != c.vcomRx.buf && len <= out.Length
    requires len <= Available(c) + |host|
    modifies c.vcomRx, c.vcomRx.buf, out
    ensures c.Valid() && rxed == len && used <= |host|
    ensures len + |c.vcomRx.Contents()| == |old(c.vcomRx.Contents())| + used
    ensures out[..len] == (old(c.vcomRx.Contents()) + host[..used])[..len]
    ensures c.vcomRx.Contents() == (old(c.vcomRx.Contents()) + host[..used])[len..]
    ensures out[len..] == old(out[len..])
  {
    ghost var q0 := c.vcomRx.Contents();
    rxed, used := 0, 0;
    while rxed < len
      invariant 0 <= rxed <= len && used <= |host| && c.Valid() && out != c.vcomRx.buf
      invariant len - rxed <= c.vcomRx.Count() + |host| - used
      invariant out[..rxed] + c.vcomRx.Contents() == q0 + host[..used]
      invariant out[len..] == old(out[len..])
      decreases len - rxed, c.vcomRx.Count() == 0
    {
      var k, p := ReadRound(c, out, len, host, rxed, used, q0);
      rxed, used := rxed + k, used + p;
    }
    ghost var all := q0 + host[..used];
    assert all[..len] == out[..len] && all[len..] == c.vcomRx.Contents();
  }

  /** `read()`: the next byte, consumed, or -1 when nothing has arrived. */
  method ReadByte(c: Composite) returns (r: int)
    requires c.Valid()
    modifies c.vcomRx
    ensures c.Valid()
    ensures r == old(c.vcomRx.PeekChar())
    ensures c.vcomRx.Contents() == if r == -1 then old(c.vcomRx.Contents()) else old(c.vcomRx.Contents())[1..]
  {
    var b := new byte[1];
    var n := c.vcomRx.Read(b, 0, 1);
    if n == 0 {
      r := -1;
    } else {
      r := b[0];
    }
  }

  /** `peek()`: a one-byte lookahead, which agrees with `peek_char`. */
  method Peek(c: Composite) returns (r: int)
    requires c.Valid()
    ensures r == c.vcomRx.PeekChar()
    ensures -1 <= r < 0x100
  {
    var b := new byte[1];
    var n := c.vcomRx.Peek(b, 0, 1);
    if n == 1 {
      r := b[0];
    } else {
      r := -1;
    }
  }

  /** `flush`: read and discard single bytes until none is left. */
  method Flush(c: Composite)
    requires c.Valid()
    modifies c.vcomRx
    ensures c.Valid() && c.vcomRx.Contents() == []
  {
    while Available(c) != 0
      invariant c.Valid()
      decreases Available(c)
    {
      var _ := ReadByte(c);
    }
  }
}
