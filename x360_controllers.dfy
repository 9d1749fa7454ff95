// What the wireless (usb_x360w.c) and the wired multi-controller
// (usb_multi_x360.c) X-Box parts have in common: a table of controllers,
// each with its own transmit state, HID protocol value, receive buffer and
// host callbacks, and a configuration descriptor made of one patched copy
// of a per-controller template for every controller in use.
module X360Controllers {
  import opened Prelude
  import opened UsbCore

  /** Controllers a part can drive, and each controller's share of the part. */
  const MAX_CONTROLLERS: nat := 4
  const NUM_INTERFACES: nat := 1
  const NUM_ENDPOINTS: nat := 2

  /** Packet sizes of each controller's interrupt endpoints. */
  const TX_EPSIZE: nat := 0x20
  const RX_EPSIZE: nat := 0x20

  /**
   * `struct controller_data`: the receive buffer is the address of the
   * controller's slice of the sketch's buffer area (0 for NULL).
   */
  datatype Controller = Controller(protocolValue: uint32, rxBuffer: nat, unsent: uint32, transmitting: bool, rumble: Hook, led: Hook)

  /** A host callback the receive handler makes: `led_callback(pattern)` or `rumble_callback(left, right)`. */
  datatype Call = Led(hook: nat, pattern: byte) | Rumble(hook: nat, left: byte, right: byte)

  /** A controller as `memset` to zero leaves it. */
  const ZERO: Controller := Controller(0, 0, 0, false, NoHook, NoHook)

  /** The receive buffer of controller `i`: the `i`-th RX_EPSIZE-byte slice of the area at `buffers`. */
  function Slice(buffers: nat, i: nat): nat
  {
    buffers + i * RX_EPSIZE
  }

  /** Controller `i` as `initialize_controller_data` leaves it: its slice, no callbacks, the rest as it was. */
  function Ready(c: Controller, buffers: nat, i: nat): Controller
  {
    c.(rxBuffer := Slice(buffers, i), rumble := NoHook, led := NoHook)
  }

  /**
   * The slices handed to `n` controllers lie inside the sketch's area of
   * `n * RX_EPSIZE` bytes and do not overlap.
   */
  lemma SlicesDisjoint(buffers: nat, n: nat, i: nat, j: nat)
    requires i < j < n
    ensures buffers <= Slice(buffers, i) && Slice(buffers, i) + RX_EPSIZE <= Slice(buffers, j)
    ensures Slice(buffers, j) + RX_EPSIZE <= buffers + n * RX_EPSIZE
  {
  }

  /** A class request to the interface with the given request code. */
  predicate ClassRequest(typeRecipient: byte, request: byte, code: byte)
  {
    typeRecipient == CLASS_INTERFACE && request == code
  }

  /**
   * `0x80 | x` on a byte: the endpoint address with its IN direction bit set.
   */
  function WithBit7(x: byte): (r: byte)
    ensures r >= 0x80 && r % 0x80 == x % 0x80
  {
    if x < 0x80 then x + 0x80 else x
  }

  /**
   * Where the five patched bytes sit in a controller's descriptor template:
   * the interface number, the two endpoint addresses and the two references
   * to the endpoints inside the vendor descriptor.
   */
  datatype Layout = Layout(template: seq<byte>, iface: nat, inAddr: nat, outAddr: nat, txRef: nat, rxRef: nat)

  predicate WellLaid(l: Layout)
  {
    && l.iface < |l.template| && l.inAddr < |l.template| && l.outAddr < |l.template|
    && l.txRef < |l.template| && l.rxRef < |l.template|
    && l.iface != l.inAddr && l.iface != l.outAddr && l.iface != l.txRef && l.iface != l.rxRef
    && l.inAddr != l.outAddr && l.inAddr != l.txRef && l.inAddr != l.rxRef
    && l.outAddr != l.txRef && l.outAddr != l.rxRef && l.txRef != l.rxRef
    && l.template[l.iface] == 0 && l.template[l.inAddr] == 0x80 && l.template[l.outAddr] == 0
  }

  predicate Patchable(l: Layout, k: nat)
  {
    k == l.iface || k == l.inAddr || k == l.outAddr || k == l.txRef || k == l.rxRef
  }

  /**
   * Copy `i` of the template for controller `i` with endpoint addresses
   * `tx` and `rx`: the interface number and the endpoint addresses are
   * incremented in their byte, the vendor references overwritten.
   */
  function Patched(l: Layout, startInterface: byte, i: nat, tx: byte, rx: byte): (r: seq<byte>)
    requires WellLaid(l)
    ensures |r| == |l.template|
  {
    l.template[l.iface := U8(l.template[l.iface] + startInterface + NUM_INTERFACES * i)]
              [l.outAddr := U8(l.template[l.outAddr] + rx)]
              [l.inAddr := U8(l.template[l.inAddr] + tx)]
              [l.txRef := WithBit7(tx)]
              [l.rxRef := rx]
  }

  /** Each byte of a patched copy: one of the five patches, or the template's byte. */
  lemma PatchedAt(l: Layout, startInterface: byte, i: nat, tx: byte, rx: byte)
    requires WellLaid(l)
    ensures var r := Patched(l, startInterface, i, tx, rx);
      forall k | 0 <= k < |l.template| :: r[k] ==
        if k == l.rxRef then rx
        else if k == l.txRef then WithBit7(tx)
        else if k == l.inAddr then U8(l.template[l.inAddr] + tx)
        else if k == l.outAddr then U8(l.template[l.outAddr] + rx)
        else if k == l.iface then U8(l.template[l.iface] + startInterface + NUM_INTERFACES * i)
        else l.template[k]
  {
  }

  /**
   * A patched copy numbers its interface `startInterface + i`, points both
   * endpoint descriptors and both vendor references at the controller's own
   * endpoints, and keeps every other byte of the template.
   */
  lemma PatchedFields(l: Layout, startInterface: byte, i: nat, tx: byte, rx: byte)
    requires WellLaid(l) && tx < 0x80
    ensures var r := Patched(l, startInterface, i, tx, rx);
      && r[l.iface] == U8(startInterface + i)
      && r[l.inAddr] == 0x80 + tx && r[l.txRef] == 0x80 + tx
      && r[l.outAddr] == rx && r[l.rxRef] == rx
    ensures forall k | 0 <= k < |l.template| && !Patchable(l, k) :: Patched(l, startInterface, i, tx, rx)[k] == l.template[k]
  {
  }

  /** `USB_*_TX_ENDP(i)` and `USB_*_RX_ENDP(i)`: controller `i`'s entries in the part's endpoint table. */
  function TxEndpoint(addresses: seq<byte>, i: nat): (e: byte)
    requires 2 * i + 1 < |addresses|
    ensures e == addresses[2 * i]
  {
    addresses[2 * i]
  }

  function RxEndpoint(addresses: seq<byte>, i: nat): (e: byte)
    requires 2 * i + 1 < |addresses|
    ensures e == addresses[2 * i + 1]
  {
    addresses[2 * i + 1]
  }

  /** The part descriptor of `n` controllers: the patched copies back to back. */
  function Config(l: Layout, startInterface: byte, addresses: seq<byte>, n: nat): (c: seq<byte>)
    requires WellLaid(l) && 2 * n <= |addresses|
    ensures n == 0 <==> c == []
    ensures n > 0 ==> |c| >= |l.template|
    ensures n > 0 ==> c[|c| - |l.template|..] == Patched(l, startInterface, n - 1, TxEndpoint(addresses, n - 1), RxEndpoint(addresses, n - 1))
  {
    if n == 0 then []
    else
      Config(l, startInterface, addresses, n - 1) + Patched(l, startInterface, n - 1, TxEndpoint(addresses, n - 1), RxEndpoint(addresses, n - 1))
  }

  /** The descriptor of `n` controllers is `n` template sizes long. */
  lemma {:induction false} ConfigLength(l: Layout, startInterface: byte, addresses: seq<byte>, n: nat)
    requires WellLaid(l) && 2 * n <= |addresses|
    ensures |Config(l, startInterface, addresses, n)| == n * |l.template|
    decreases n
  {
    if n > 0 {
      ConfigLength(l, startInterface, addresses, n - 1);
      MulSucc(n - 1, |l.template|);
    }
  }

  /**
   * Copy `i` of the part descriptor, which starts where the descriptor of
   * the first `i` controllers ends, is the template patched for controller `i`.
   */
  lemma {:induction false} ConfigCopy(l: Layout, startInterface: byte, addresses: seq<byte>, n: nat, i: nat)
    requires WellLaid(l) && 2 * n <= |addresses| && i < n
    ensures var at := |Config(l, startInterface, addresses, i)|;
      at + |l.template| <= |Config(l, startInterface, addresses, n)| &&
      Config(l, startInterface, addresses, n)[at..at + |l.template|]
        == Patched(l, startInterface, i, TxEndpoint(addresses, i), RxEndpoint(addresses, i))
    decreases n
  {
    if i < n - 1 {
      var front := Config(l, startInterface, addresses, n - 1);
      var last := Patched(l, startInterface, n - 1, TxEndpoint(addresses, n - 1), RxEndpoint(addresses, n - 1));
      assert Config(l, startInterface, addresses, n) == front + last;
      ConfigCopy(l, startInterface, addresses, n - 1, i);
      KeptInFront(front, last, |Config(l, startInterface, addresses, i)|, |l.template|,
        Patched(l, startInterface, i, TxEndpoint(addresses, i), RxEndpoint(addresses, i)));
    } else {
      LastCopy(l, startInterface, addresses, i);
    }
  }

  /** The last copy of the descriptor of `i + 1` controllers is copy `i`. */
  lemma LastCopy(l: Layout, startInterface: byte, addresses: seq<byte>, i: nat)
    requires WellLaid(l) && 2 * (i + 1) <= |addresses|
    ensures var at := |Config(l, startInterface, addresses, i)|;
      at + |l.template| <= |Config(l, startInterface, addresses, i + 1)| &&
      Config(l, startInterface, addresses, i + 1)[at..at + |l.template|]
        == Patched(l, startInterface, i, TxEndpoint(addresses, i), RxEndpoint(addresses, i))
  {
    SliceOfBack(Config(l, startInterface, addresses, i),
      Patched(l, startInterface, i, TxEndpoint(addresses, i), RxEndpoint(addresses, i)));
  }

  /** A slice of the front of `front + last` survives the append. */
  lemma KeptInFront(front: seq<byte>, last: seq<byte>, at: nat, size: nat, copy: seq<byte>)
    requires at + size <= |front| && front[at..at + size] == copy
    ensures at + size <= |front + last| && (front + last)[at..at + size] == copy
  {
    SliceOfFront(front, last, at, at + size);
  }

  lemma SliceOfFront(a: seq<byte>, b: seq<byte>, lo: nat, hi: nat)
    requires lo <= hi <= |a|
    ensures (a + b)[lo..hi] == a[lo..hi]
  {
  }

  lemma SliceOfBack(a: seq<byte>, b: seq<byte>)
    ensures (a + b)[|a|..|a| + |b|] == b
  {
  }

  lemma MulMono(a: nat, b: nat, c: nat)
    requires a <= b
    ensures a * c <= b * c
  {
  }

  lemma MulSucc(a: nat, c: nat)
    ensures (a + 1) * c == a * c + c
  {
  }

  /**
   * A table of controllers together with the counts of the part that
   * scale with it; `configSize` is the size of one descriptor copy.
   */
  class ControllerTable {
    const controllers: array<Controller>
    var numControllers: nat
    const configSize: nat
    var numInterfaces: nat
    var descriptorSize: nat
    var numEndpoints: nat

    ghost predicate Valid()
      reads this
    {
      controllers.Length == MAX_CONTROLLERS && numControllers <= MAX_CONTROLLERS
    }

    /** The static initialisers: every controller zero and the part sized for all of them. */
    constructor (configSize: nat)
      ensures Valid() && fresh(controllers) && this.configSize == configSize
      ensures forall i | 0 <= i < MAX_CONTROLLERS :: controllers[i] == ZERO
      ensures numControllers == MAX_CONTROLLERS
      ensures numInterfaces == NUM_INTERFACES * MAX_CONTROLLERS && numEndpoints == NUM_ENDPOINTS * MAX_CONTROLLERS
      ensures descriptorSize == MAX_CONTROLLERS * configSize
    {
      controllers := new Controller[MAX_CONTROLLERS](_ => ZERO);
      numControllers := MAX_CONTROLLERS;
      this.configSize := configSize;
      numInterfaces := NUM_INTERFACES * MAX_CONTROLLERS;
      numEndpoints := NUM_ENDPOINTS * MAX_CONTROLLERS;
      descriptorSize := MAX_CONTROLLERS * configSize;
    }

    /** The part's `clear`: every controller zeroed and the count back at the maximum. */
    method Clear()
      requires Valid()
      modifies this, controllers
      ensures Valid() && numControllers == MAX_CONTROLLERS
      ensures forall i | 0 <= i < MAX_CONTROLLERS :: controllers[i] == ZERO
      ensures numInterfaces == old(numInterfaces) && descriptorSize == old(descriptorSize) && numEndpoints == old(numEndpoints)
    {
      forall i | 0 <= i < controllers.Length {
        controllers[i] := ZERO;
      }
      numControllers := MAX_CONTROLLERS;
    }

    /**
     * `initialize_controller_data(n, buffers)`: the first `n` controllers get
     * consecutive slices of the buffer area and lose their callbacks, and the
     * part's counts become those of `n` controllers.
     */
    method Initialize(n: uint32, buffers: nat)
      requires Valid() && n <= MAX_CONTROLLERS
      modifies this, controllers
      ensures Valid() && numControllers == n
      ensures forall i | 0 <= i < n :: controllers[i] == Ready(old(controllers[i]), buffers, i)
      ensures forall i | n <= i < MAX_CONTROLLERS :: controllers[i] == old(controllers[i])
      ensures numInterfaces == NUM_INTERFACES * n && descriptorSize == configSize * n && numEndpoints == NUM_ENDPOINTS * n
    {
      numControllers := n;
      var i: nat := 0;
      while i < numControllers
        invariant Valid() && numControllers == n && i <= n
        invariant forall k | 0 <= k < i :: controllers[k] == Ready(old(controllers[k]), buffers, k)
        invariant forall k | i <= k < MAX_CONTROLLERS :: controllers[k] == old(controllers[k])
      {
        controllers[i] := Ready(controllers[i], buffers, i);
        i := i + 1;
      }
      numInterfaces := NUM_INTERFACES * numControllers;
      descriptorSize := configSize * numControllers;
      numEndpoints := NUM_ENDPOINTS * numControllers;
    }

    /** `set_rumble_callback` and `set_led_callback` on controller `c`; `stop` passes NoHook. */
    method SetRumble(c: uint32, h: Hook)
      requires Valid() && c < MAX_CONTROLLERS
      modifies controllers
      ensures controllers[..] == old(controllers[..])[c := old(controllers[c]).(rumble := h)]
    {
      controllers[c] := controllers[c].(rumble := h);
    }

    method SetLed(c: uint32, h: Hook)
      requires Valid() && c < MAX_CONTROLLERS
      modifies controllers
      ensures controllers[..] == old(controllers[..])[c := old(controllers[c]).(led := h)]
    {
      controllers[c] := controllers[c].(led := h);
    }

    /** `is_transmitting(c)`. */
    function IsTransmitting(c: uint32): (t: bool)
      requires Valid() && c < MAX_CONTROLLERS
      reads this, controllers
      ensures t <==> controllers[c].transmitting
    {
      controllers[c].transmitting
    }

    /**
     * `tx(c, buf, len)`: nothing while controller `c` is still transmitting;
     * otherwise `len` clamped to TX_EPSIZE is queued on that controller alone,
     * which becomes busy, and the queued count is returned.
     */
    method Tx(c: uint32, len: uint32) returns (r: uint32)
      requires Valid() && c < MAX_CONTROLLERS
      modifies controllers
      ensures old(controllers[c].transmitting) ==> r == 0 && controllers[..] == old(controllers[..])
      ensures !old(controllers[c].transmitting) ==> r == Min(len, TX_EPSIZE)
      ensures !old(controllers[c].transmitting) ==>
        controllers[..] == old(controllers[..])[c := old(controllers[c]).(unsent := r, transmitting := true)]
    {
      if IsTransmitting(c) {
        return 0;
      }
      var n := len;
      if n > TX_EPSIZE {
        n := TX_EPSIZE;
      }
      controllers[c] := controllers[c].(unsent := n, transmitting := true);
      r := n;
    }

    /** The transmit-complete callback of controller `c`. */
    method TxComplete(c: uint32)
      requires Valid() && c < MAX_CONTROLLERS
      modifies controllers
      ensures controllers[..] == old(controllers[..])[c := old(controllers[c]).(unsent := 0, transmitting := false)]
    {
      controllers[c] := controllers[c].(unsent := 0, transmitting := false);
    }

    /**
     * GET_PROTOCOL to interface `iface` of the part's data setup: the
     * protocol value of the controller behind that interface, and
     * UNSUPPORT (None) for every other request.
     */
    function ProtocolReply(typeRecipient: byte, request: byte, iface: byte): (r: Option<seq<byte>>)
      requires Valid() && (ClassRequest(typeRecipient, request, GET_PROTOCOL) ==> iface < MAX_CONTROLLERS)
      reads this, controllers
      ensures r.Some? <==> ClassRequest(typeRecipient, request, GET_PROTOCOL)
      ensures r.Some? ==> r.value == ProtocolData(controllers[iface / NUM_INTERFACES].protocolValue)
    {
      if ClassRequest(typeRecipient, request, GET_PROTOCOL) then Some(ProtocolData(controllers[iface / NUM_INTERFACES].protocolValue))
      else None
    }

    /**
     * The part's no-data setup: SET_PROTOCOL stores `wValue0` as the
     * protocol of the controller behind interface `iface` and succeeds,
     * after which GET_PROTOCOL reports that byte; every other request is
     * UNSUPPORT and changes nothing.
     */
    method NoDataSetup(typeRecipient: byte, request: byte, wValue0: byte, iface: byte) returns (r: UsbResult)
      requires Valid() && (ClassRequest(typeRecipient, request, SET_PROTOCOL) ==> iface < MAX_CONTROLLERS)
      modifies controllers
      ensures r == Success <==> ClassRequest(typeRecipient, request, SET_PROTOCOL)
      ensures r != Success ==> r == Unsupport && controllers[..] == old(controllers[..])
      ensures r == Success ==> controllers[..] == old(controllers[..])[iface := old(controllers[iface]).(protocolValue := wValue0)]
      ensures r == Success ==> ProtocolReply(CLASS_INTERFACE, GET_PROTOCOL, iface) == Some([wValue0])
    {
      if ClassRequest(typeRecipient, request, SET_PROTOCOL) {
        var c := iface / NUM_INTERFACES;
        controllers[c] := controllers[c].(protocolValue := wValue0);
        ProtocolRoundTrip(wValue0);
        r := Success;
      } else {
        r := Unsupport;
      }
    }

    /** The part's reset: the transmit state of the controllers in use is cleared. */
    method Reset()
      requires Valid()
      modifies controllers
      ensures forall i | 0 <= i < numControllers :: controllers[i] == old(controllers[i]).(unsent := 0, transmitting := false)
      ensures forall i | numControllers <= i < MAX_CONTROLLERS :: controllers[i] == old(controllers[i])
    {
      var i: nat := 0;
      while i < numControllers
        invariant i <= numControllers
        invariant forall k | 0 <= k < i :: controllers[k] == old(controllers[k]).(unsent := 0, transmitting := false)
        invariant forall k | i <= k < MAX_CONTROLLERS :: controllers[k] == old(controllers[k])
      {
        controllers[i] := controllers[i].(unsent := 0, transmitting := false);
        i := i + 1;
      }
    }
  }

  /**
   * `getX360WPartDescriptor` / `getX360PartDescriptor`: copy the template
   * once per controller into `out` and patch each copy in place.
   */
  method WritePartDescriptor(out: array<byte>, l: Layout, startInterface: byte, addresses: seq<byte>, n: nat)
    requires WellLaid(l) && 2 * n <= |addresses| && n * |l.template| <= out.Length
    modifies out
    ensures out[..n * |l.template|] == Config(l, startInterface, addresses, n)
    ensures out[n * |l.template|..] == old(out[n * |l.template|..])
  {
    var size := |l.template|;
    var total := n * size;
    ConfigLength(l, startInterface, addresses, n);
    var i: nat := 0;
    var at: nat := 0;
    while i < n
      invariant i <= n && at == |Config(l, startInterface, addresses, i)| && at <= total
      invariant out[..at] == Config(l, startInterface, addresses, i)
      invariant out[total..] == old(out[total..])
    {
      ConfigCopy(l, startInterface, addresses, n, i);
      assert at + size <= total;
      ghost var before := out[..];
      WriteNext(out, at, l, startInterface, addresses, i);
      assert out[total..] == before[total..] by {
        assert out[at + size..] == before[at + size..];
      }
      i := i + 1;
      at := at + size;
    }
    assert out[..total] == Config(l, startInterface, addresses, n);
    assert out[total..] == old(out[total..]);
  }

  /** The loop step of WritePartDescriptor: copy `i` written after the first `i`. */
  method WriteNext(out: array<byte>, at: nat, l: Layout, startInterface: byte, addresses: seq<byte>, i: nat)
    requires WellLaid(l) && 2 * (i + 1) <= |addresses|
    requires at == |Config(l, startInterface, addresses, i)| && at + |l.template| <= out.Length
    requires out[..at] == Config(l, startInterface, addresses, i)
    modifies out
    ensures out[..at + |l.template|] == Config(l, startInterface, addresses, i + 1)
    ensures out[at + |l.template|..] == old(out[at + |l.template|..])
  {
    ghost var copy := Patched(l, startInterface, i, TxEndpoint(addresses, i), RxEndpoint(addresses, i));
    ghost var next := Config(l, startInterface, addresses, i + 1);
    assert next == Config(l, startInterface, addresses, i) + copy;
    WriteCopy(out, at, l, startInterface, i, TxEndpoint(addresses, i), RxEndpoint(addresses, i));
    forall k | 0 <= k < at + |l.template|
      ensures out[k] == next[k]
    {
      if k >= at {
        assert out[at + (k - at)] == copy[k - at];
      } else {
        assert out[k] == old(out[..at])[k];
      }
    }
    assert out[..at + |l.template|] == next;
    forall k | at + |l.template| <= k < out.Length
      ensures out[k] == old(out[k])
    {
    }
  }

  /** One controller's copy at `out[at..]`: `memcpy` of the template, then the five patches. */
  method WriteCopy(out: array<byte>, at: nat, l: Layout, startInterface: byte, i: nat, tx: byte, rx: byte)
    requires WellLaid(l) && at + |l.template| <= out.Length
    modifies out
    ensures forall k | 0 <= k < |l.template| :: out[at + k] == Patched(l, startInterface, i, tx, rx)[k]
    ensures forall k | 0 <= k < out.Length && !(at <= k < at + |l.template|) :: out[k] == old(out[k])
  {
    CopyTemplate(out, at, l.template);
    PatchCopy(out, at, l, startInterface, i, tx, rx);
    PatchedAt(l, startInterface, i, tx, rx);
  }

  /** The five patches of one copy, in the order the C code makes them. */
  method PatchCopy(out: array<byte>, at: nat, l: Layout, startInterface: byte, i: nat, tx: byte, rx: byte)
    requires WellLaid(l) && at + |l.template| <= out.Length
    modifies out
    ensures out[at + l.iface] == U8(old(out[at + l.iface]) + startInterface + NUM_INTERFACES * i)
    ensures out[at + l.outAddr] == U8(old(out[at + l.outAddr]) + rx)
    ensures out[at + l.inAddr] == U8(old(out[at + l.inAddr]) + tx)
    ensures out[at + l.txRef] == WithBit7(tx) && out[at + l.rxRef] == rx
    ensures forall k | 0 <= k < out.Length && !(at <= k < at + |l.template| && Patchable(l, k - at)) :: out[k] == old(out[k])
  {
    out[at + l.iface] := U8(out[at + l.iface] + startInterface + NUM_INTERFACES * i);
    out[at + l.outAddr] := U8(out[at + l.outAddr] + rx);
    out[at + l.inAddr] := U8(out[at + l.inAddr] + tx);
    out[at + l.txRef] := WithBit7(tx);
    out[at + l.rxRef] := rx;
  }

  /** The `memcpy` of the template to `out[at..]`. */
  method CopyTemplate(out: array<byte>, at: nat, t: seq<byte>)
    requires at + |t| <= out.Length
    modifies out
    ensures forall k | 0 <= k < |t| :: out[at + k] == t[k]
    ensures forall k | 0 <= k < out.Length && !(at <= k < at + |t|) :: out[k] == old(out[k])
  {
    forall k | 0 <= k < |t| {
      out[at + k] := t[k];
    }
  }
}
