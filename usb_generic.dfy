// The composite-device core: numbering the parts' interfaces and endpoints,
// laying out their configuration descriptors back to back, allocating
// packet memory for their endpoint buffers and routing endpoint interrupts,
// then passing setup requests to the parts in order.
module UsbGeneric {
  import opened Prelude

  /** Packet memory of the STM32F1 USB peripheral, in bytes. */
  const PMA_MEMORY_SIZE: nat := 512
  /** The room for part descriptors after the configuration header. */
  const MAX_USB_DESCRIPTOR_DATA_SIZE: nat := 200
  const USB_EP0_BUFFER_SIZE: nat := 0x40
  const USB_EP0_RX_BUFFER_ADDRESS: nat := 0x80
  /** The first packet-memory byte after endpoint 0's buffers. */
  const PMA_START: nat := USB_EP0_RX_BUFFER_ADDRESS + USB_EP0_BUFFER_SIZE
  /** Endpoint numbers in use, endpoint 0 included, are at most this many. */
  const MAX_ENDPOINTS: nat := 8
  /** The configuration descriptor header (section 9.6.3 of USB 2.0). */
  const CONFIG_HEADER_SIZE: nat := 9

  /** An endpoint interrupt handler: none given, the no-op, or a part's own. */
  datatype Callback = Null | Nop | Handler(id: nat)

  /**
   * An entry of a part's endpoint table: what the part supplies and what
   * the setup fills in (`pmaAddress`, `number`, a non-null callback).
   */
  datatype Endpoint = Endpoint(bufferSize: uint16, tx: bool, callback: Callback, pmaAddress: nat, number: nat)

  /**
   * `USBCompositePart`: its interface count, the first interface number the
   * setup gives it, the descriptor bytes `getPartDescriptor` writes and its
   * endpoint table (`numEndpoints` is the table's length).
   */
  datatype Part = Part(numInterfaces: byte, startInterface: byte, descriptor: seq<byte>, endpoints: seq<Endpoint>)

  /** The buffer sizes of an endpoint table, added up. */
  function Total(eps: seq<Endpoint>): nat
  {
    if eps == [] then 0 else eps[0].bufferSize + Total(eps[1..])
  }

  function InterfacesBefore(ps: seq<Part>, i: nat): nat
    requires i <= |ps|
  {
    if i == 0 then 0 else InterfacesBefore(ps, i - 1) + ps[i - 1].numInterfaces
  }

  function EndpointsBefore(ps: seq<Part>, i: nat): nat
    requires i <= |ps|
  {
    if i == 0 then 0 else EndpointsBefore(ps, i - 1) + |ps[i - 1].endpoints|
  }

  function PmaBefore(ps: seq<Part>, i: nat): nat
    requires i <= |ps|
  {
    if i == 0 then 0 else PmaBefore(ps, i - 1) + Total(ps[i - 1].endpoints)
  }

  /** The number the setup gives the first endpoint of part `i`. */
  function FirstNumber(ps: seq<Part>, i: nat): nat
    requires i <= |ps|
  {
    1 + EndpointsBefore(ps, i)
  }

  /** The packet-memory address of the first buffer of part `i`. */
  function FirstPma(ps: seq<Part>, i: nat): nat
    requires i <= |ps|
  {
    PMA_START + PmaBefore(ps, i)
  }

  /** The descriptors of the first `i` parts, back to back. */
  function ConfigData(ps: seq<Part>, i: nat): seq<byte>
    requires i <= |ps|
  {
    if i == 0 then [] else ConfigData(ps, i - 1) + ps[i - 1].descriptor
  }

  /** Every part fits: endpoint numbers, descriptor room and packet memory. */
  predicate Fits(ps: seq<Part>)
  {
    FirstNumber(ps, |ps|) <= MAX_ENDPOINTS
    && |ConfigData(ps, |ps|)| <= MAX_USB_DESCRIPTOR_DATA_SIZE
    && FirstPma(ps, |ps|) <= PMA_MEMORY_SIZE
  }

  /** An endpoint as the setup leaves it. */
  function Placed(e: Endpoint, number: nat, pma: nat): Endpoint
  {
    e.(pmaAddress := pma, number := number, callback := if e.callback == Null then Nop else e.callback)
  }

  /** A part's endpoint table numbered from `n` and packed into packet memory from `pma`. */
  function PlacedEndpoints(eps: seq<Endpoint>, n: nat, pma: nat): (r: seq<Endpoint>)
    ensures |r| == |eps|
  {
    if eps == [] then [] else [Placed(eps[0], n, pma)] + PlacedEndpoints(eps[1..], n + 1, pma + eps[0].bufferSize)
  }

  /** Endpoint `j` of a placed table: number `n + j`, buffer after those of the endpoints before it. */
  lemma {:induction false} PlacedAt(eps: seq<Endpoint>, n: nat, pma: nat, j: nat)
    requires j < |eps|
    ensures PlacedEndpoints(eps, n, pma)[j] == Placed(eps[j], n + j, pma + Total(eps[..j]))
    decreases j
  {
    if j > 0 {
      PlacedAt(eps[1..], n + 1, pma + eps[0].bufferSize, j - 1);
      assert eps[..j][1..] == eps[1..][..j - 1];
    }
  }

  /** Splitting a table splits its total. */
  lemma {:induction false} TotalSplit(eps: seq<Endpoint>, j: nat)
    requires j <= |eps|
    ensures Total(eps) == Total(eps[..j]) + Total(eps[j..])
    decreases j
  {
    if j > 0 {
      TotalSplit(eps[1..], j - 1);
      assert eps[..j][1..] == eps[1..][..j - 1];
      assert eps[1..][j - 1..] == eps[j..];
    }
  }

  /** Part `i` as the setup leaves it. */
  function PlacedPart(ps: seq<Part>, i: nat): Part
    requires i < |ps|
  {
    ps[i].(startInterface := U8(InterfacesBefore(ps, i)),
           endpoints := PlacedEndpoints(ps[i].endpoints, FirstNumber(ps, i), FirstPma(ps, i)))
  }

  lemma {:induction false} BeforeMonotone(ps: seq<Part>, i: nat, k: nat)
    requires i <= k <= |ps|
    ensures EndpointsBefore(ps, i) <= EndpointsBefore(ps, k)
    ensures PmaBefore(ps, i) <= PmaBefore(ps, k)
    ensures |ConfigData(ps, i)| <= |ConfigData(ps, k)|
    decreases k
  {
    if i < k {
      BeforeMonotone(ps, i, k - 1);
    }
  }

  /** Part `i`'s descriptor sits right after those of the parts before it. */
  lemma {:induction false} DescriptorAt(ps: seq<Part>, i: nat, k: nat)
    requires i < k <= |ps|
    ensures var off := |ConfigData(ps, i)|;
      off + |ps[i].descriptor| <= |ConfigData(ps, k)| && ConfigData(ps, k)[off..off + |ps[i].descriptor|] == ps[i].descriptor
    decreases k
  {
    if k > i + 1 {
      DescriptorAt(ps, i, k - 1);
    }
  }

  /**
   * When every part fits, each endpoint buffer lies in packet memory after
   * endpoint 0's, and the next endpoint's buffer starts where it ends.
   */
  lemma PlacedWithinPma(ps: seq<Part>, i: nat, j: nat)
    requires Fits(ps) && i < |ps| && j < |ps[i].endpoints|
    ensures var e := PlacedPart(ps, i).endpoints[j];
      PMA_START <= e.pmaAddress && e.pmaAddress + e.bufferSize <= PMA_MEMORY_SIZE
    ensures j + 1 < |ps[i].endpoints| ==>
      PlacedPart(ps, i).endpoints[j].pmaAddress + ps[i].endpoints[j].bufferSize == PlacedPart(ps, i).endpoints[j + 1].pmaAddress
  {
    var eps := ps[i].endpoints;
    PartEndpointAt(ps, i, j);
    TotalSnoc(eps, j);
    TotalSplit(eps, j + 1);
    BeforeMonotone(ps, i + 1, |ps|);
    assert PmaBefore(ps, i + 1) == PmaBefore(ps, i) + Total(eps);
    if j + 1 < |eps| {
      PartEndpointAt(ps, i, j + 1);
    }
  }

  /** Endpoint `j` of part `i` after the setup, written out. */
  lemma PartEndpointAt(ps: seq<Part>, i: nat, j: nat)
    requires i < |ps| && j < |ps[i].endpoints|
    ensures PlacedPart(ps, i).endpoints[j]
      == Placed(ps[i].endpoints[j], FirstNumber(ps, i) + j, FirstPma(ps, i) + Total(ps[i].endpoints[..j]))
  {
    PlacedAt(ps[i].endpoints, FirstNumber(ps, i), FirstPma(ps, i), j);
  }

  /** The first `j + 1` buffer sizes are the first `j` and endpoint `j`'s. */
  lemma TotalSnoc(eps: seq<Endpoint>, j: nat)
    requires j < |eps|
    ensures Total(eps[..j + 1]) == Total(eps[..j]) + eps[j].bufferSize
  {
    var front := eps[..j + 1];
    TotalSplit(front, j);
    assert front[..j] == eps[..j];
    assert front[j..] == [eps[j]];
  }

  /** Endpoint numbers run from 1 without gaps or repeats across the parts, and stay below 8. */
  lemma EndpointNumbers(ps: seq<Part>, i: nat, j: nat, i': nat, j': nat)
    requires Fits(ps) && i < |ps| && j < |ps[i].endpoints| && i' < |ps| && j' < |ps[i'].endpoints|
    requires i < i' || (i == i' && j < j')
    ensures 1 <= PlacedPart(ps, i).endpoints[j].number < PlacedPart(ps, i').endpoints[j'].number < MAX_ENDPOINTS
  {
    PartEndpointAt(ps, i, j);
    PartEndpointAt(ps, i', j');
    BeforeMonotone(ps, i' + 1, |ps|);
    if i < i' {
      BeforeMonotone(ps, i + 1, i');
    }
  }

  /** Placing from endpoint `j` on: endpoint `j` first, then the rest after its buffer. */
  lemma PlaceStep(eps: seq<Endpoint>, j: nat, n: nat, pma: nat)
    requires j < |eps|
    ensures Total(eps[j..]) == eps[j].bufferSize + Total(eps[j + 1..])
    ensures PlacedEndpoints(eps[j..], n, pma) == [Placed(eps[j], n, pma)] + PlacedEndpoints(eps[j + 1..], n + 1, pma + eps[j].bufferSize)
  {
    assert eps[j..][1..] == eps[j + 1..];
  }

  /** The placing loop's invariant carried from endpoint `j` to `j + 1 == j'`. */
  lemma PlaceAdvance(eps: seq<Endpoint>, n0: nat, pma0: nat, j: nat, pma: nat, placed: seq<Endpoint>, j': nat, pma': nat, placed': seq<Endpoint>)
    requires j < |eps| && j' == j + 1 && pma' == pma + eps[j].bufferSize && placed' == placed + [Placed(eps[j], n0 + j, pma)]
    requires pma + Total(eps[j..]) == pma0 + Total(eps)
    requires placed + PlacedEndpoints(eps[j..], n0 + j, pma) == PlacedEndpoints(eps, n0, pma0)
    ensures pma' + Total(eps[j'..]) == pma0 + Total(eps)
    ensures placed' + PlacedEndpoints(eps[j'..], n0 + j', pma') == PlacedEndpoints(eps, n0, pma0)
  {
    PlaceStep(eps, j, n0 + j, pma);
    assert placed' + PlacedEndpoints(eps[j'..], n0 + j', pma') == placed + PlacedEndpoints(eps[j..], n0 + j, pma);
  }

  /** The endpoints of the first `i` parts as the setup leaves them, in part order. */
  function PlacedFlat(ps: seq<Part>, i: nat): (r: seq<Endpoint>)
    requires i <= |ps|
    ensures |r| == EndpointsBefore(ps, i)
  {
    if i == 0 then [] else PlacedFlat(ps, i - 1) + PlacedPart(ps, i - 1).endpoints
  }

  /** Endpoint `k` of the placed endpoints, counted across the parts, has number `k + 1`. */
  lemma {:induction false} FlatNumbers(ps: seq<Part>, i: nat)
    requires i <= |ps|
    ensures forall k | 0 <= k < |PlacedFlat(ps, i)| :: PlacedFlat(ps, i)[k].number == k + 1
  {
    if i > 0 {
      FlatNumbers(ps, i - 1);
      var before := EndpointsBefore(ps, i - 1);
      var eps := ps[i - 1].endpoints;
      forall k | before <= k < |PlacedFlat(ps, i)|
        ensures PlacedFlat(ps, i)[k].number == k + 1
      {
        PlacedAt(eps, FirstNumber(ps, i - 1), FirstPma(ps, i - 1), k - before);
      }
    }
  }

  /** Endpoint `j` of part `i` sits in the placed endpoints after those of the parts before it. */
  lemma {:induction false} FlatAt(ps: seq<Part>, i: nat, j: nat, n: nat)
    requires i < n <= |ps| && j < |ps[i].endpoints|
    ensures EndpointsBefore(ps, i) + j < |PlacedFlat(ps, n)|
      && PlacedFlat(ps, n)[EndpointsBefore(ps, i) + j] == PlacedPart(ps, i).endpoints[j]
    decreases n
  {
    if n > i + 1 {
      FlatAt(ps, i, j, n - 1);
      BeforeMonotone(ps, i + 1, n - 1);
    }
  }

  /**
   * The handler table of direction `tx` after each endpoint in turn wrote
   * its handler into the slot of its number.
   */
  function Route(slots: seq<Callback>, eps: seq<Endpoint>, tx: bool): (r: seq<Callback>)
    ensures |r| == |slots|
  {
    if eps == [] then slots
    else
      var r := Route(slots, eps[..|eps| - 1], tx);
      var e := eps[|eps| - 1];
      if e.tx == tx && 1 <= e.number <= |r| then r[e.number - 1 := e.callback] else r
  }

  /**
   * Numbered consecutively from 1, each endpoint owns the slot below its
   * number: that slot holds its handler in its own direction, and every
   * other slot keeps what it held.
   */
  lemma {:induction false} RouteConsecutive(slots: seq<Callback>, eps: seq<Endpoint>, tx: bool)
    requires |eps| <= |slots|
    requires forall k | 0 <= k < |eps| :: eps[k].number == k + 1
    ensures forall k | 0 <= k < |slots| ::
      Route(slots, eps, tx)[k] == if k < |eps| && eps[k].tx == tx then eps[k].callback else slots[k]
  {
    if eps != [] {
      var front := eps[..|eps| - 1];
      assert forall k | 0 <= k < |front| :: front[k] == eps[k];
      RouteConsecutive(slots, front, tx);
    }
  }

  /**
   * A handler table after the setup: the parts' endpoints routed, the
   * slots past the last endpoint given the no-op.
   */
  function Routed(slots: seq<Callback>, ps: seq<Part>, tx: bool): seq<Callback>
  {
    var r := Route(slots, PlacedFlat(ps, |ps|), tx);
    seq(|r|, k requires 0 <= k < |r| => if k < EndpointsBefore(ps, |ps|) then r[k] else Nop)
  }

  /**
   * When every part fits, each endpoint's handler sits in the slot of its
   * number in its own direction; the other direction's slot keeps its old
   * handler.
   */
  lemma EndpointRouted(slots: seq<Callback>, ps: seq<Part>, i: nat, j: nat)
    requires Fits(ps) && |slots| == MAX_ENDPOINTS - 1 && i < |ps| && j < |ps[i].endpoints|
    ensures var e := PlacedPart(ps, i).endpoints[j];
      1 <= e.number < MAX_ENDPOINTS && Routed(slots, ps, e.tx)[e.number - 1] == e.callback
      && Routed(slots, ps, !e.tx)[e.number - 1] == slots[e.number - 1]
  {
    var k := EndpointsBefore(ps, i) + j;
    FlatAt(ps, i, j, |ps|);
    BeforeMonotone(ps, i + 1, |ps|);
    FlatNumbers(ps, |ps|);
    RouteConsecutive(slots, PlacedFlat(ps, |ps|), true);
    RouteConsecutive(slots, PlacedFlat(ps, |ps|), false);
  }

  /** Routing two runs of endpoints is routing the first, then the second. */
  lemma {:induction false} RouteAppend(slots: seq<Callback>, a: seq<Endpoint>, b: seq<Endpoint>, tx: bool)
    ensures Route(slots, a + b, tx) == Route(Route(slots, a, tx), b, tx)
    decreases |b|
  {
    if b == [] {
      assert a + b == a;
    } else {
      var b' := b[..|b| - 1];
      assert (a + b)[..|a + b| - 1] == a + b';
      RouteAppend(slots, a, b', tx);
    }
  }

  /** How the endpoint loop of `usb_generic_composite_setup` ends. */
  datatype LoopEnd = Done | OutOfPma | PastTable

  /**
   * The endpoint loop as written: it runs while `j < numEndpoints`, the
   * running endpoint count, which it increments together with `j`.
   */
  function EndpointLoopAsWritten(eps: seq<Endpoint>, j: nat, numEndpoints: nat, pma: nat): LoopEnd
    decreases |eps| - j
  {
    if !(j < numEndpoints) then Done
    else if j >= |eps| then PastTable
    else if eps[j].bufferSize + pma > PMA_MEMORY_SIZE then OutOfPma
    else EndpointLoopAsWritten(eps, j + 1, numEndpoints + 1, pma + eps[j].bufferSize)
  }

  /**
   * With the count starting at 1 the condition never fails: the loop only
   * stops when packet memory runs out, or reads past the part's table.
   */
  lemma {:induction false} EndpointLoopNeverEnds(eps: seq<Endpoint>, j: nat, numEndpoints: nat, pma: nat)
    requires j < numEndpoints
    ensures EndpointLoopAsWritten(eps, j, numEndpoints, pma) != Done
    ensures j <= |eps| && pma + Total(eps[j..]) <= PMA_MEMORY_SIZE ==> EndpointLoopAsWritten(eps, j, numEndpoints, pma) == PastTable
    decreases |eps| - j
  {
    if j < |eps| {
      assert eps[j..][1..] == eps[j + 1..];
      if eps[j].bufferSize + pma <= PMA_MEMORY_SIZE {
        EndpointLoopNeverEnds(eps, j + 1, numEndpoints + 1, pma + eps[j].bufferSize);
      }
    }
  }

  /** One endpoint of a part: the whole table fits in one step. */
  lemma OneEndpointReadsPastTable(e: Endpoint)
    requires e.bufferSize <= PMA_MEMORY_SIZE - PMA_START
    ensures EndpointLoopAsWritten([e], 0, 1, PMA_START) == PastTable
  {
    assert EndpointLoopAsWritten([e], 1, 2, PMA_START + e.bufferSize) == PastTable;
  }

  class GenericDevice {
    /** The registered parts, with the fields the setup fills in. */
    var parts: seq<Part>
    /** `usbConfig.descriptorData` as far as it has been written. */
    var config: seq<byte>
    /** `bNumInterfaces` and `wTotalLength` of the configuration header. */
    var numInterfaces: byte
    var totalLength: nat
    /** `Total_Endpoint` of the device table: endpoint 0 does not count. */
    var totalEndpoint: nat
    /** `ep_int_in` and `ep_int_out`: the handlers of endpoints 1 to 7. */
    const epIn: array<Callback>
    const epOut: array<Callback>

    ghost predicate Valid()
      reads this
    {
      epIn.Length == MAX_ENDPOINTS - 1 && epOut.Length == MAX_ENDPOINTS - 1 && epIn != epOut
    }

    constructor()
      ensures Valid() && parts == [] && config == []
    {
      parts := [];
      config := [];
      numInterfaces := 0;
      totalLength := 0;
      totalEndpoint := 0;
      epIn := new Callback[MAX_ENDPOINTS - 1](_ => Nop);
      epOut := new Callback[MAX_ENDPOINTS - 1](_ => Nop);
    }

    /**
     * The endpoint loop for one part, bounded by the part's own table:
     * numbers from `n0`, packet memory from `pma0`, handlers routed by
     * direction; it fails when a buffer would pass the end of packet memory,
     * with the endpoints before it already placed and routed.
     */
    method PlaceEndpoints(eps: seq<Endpoint>, n0: nat, pma0: nat) returns (ok: bool, placed: seq<Endpoint>)
      requires Valid() && 1 <= n0 && n0 + |eps| <= MAX_ENDPOINTS && pma0 <= PMA_MEMORY_SIZE
      modifies epIn, epOut
      ensures ok <==> pma0 + Total(eps) <= PMA_MEMORY_SIZE
      ensures ok ==> placed == PlacedEndpoints(eps, n0, pma0)
      ensures epIn[..] == Route(old(epIn[..]), placed, true) && epOut[..] == Route(old(epOut[..]), placed, false)
    {
      var pma: nat := pma0;
      placed := [];
      var j: nat := 0;
      assert eps[0..] == eps;
      while j < |eps|
        invariant 0 <= j <= |eps| && |placed| == j && pma <= PMA_MEMORY_SIZE
        invariant pma + Total(eps[j..]) == pma0 + Total(eps)
        invariant placed + PlacedEndpoints(eps[j..], n0 + j, pma) == PlacedEndpoints(eps, n0, pma0)
        invariant epIn[..] == Route(old(epIn[..]), placed, true) && epOut[..] == Route(old(epOut[..]), placed, false)
      {
        var e := eps[j];
        PlaceStep(eps, j, n0 + j, pma);
        if e.bufferSize + pma > PMA_MEMORY_SIZE {
          return false, placed;
        }
        var p := RouteNext(e, n0 + j, pma, placed, old(epIn[..]), old(epOut[..]));
        ghost var j0, pma1, placed0 := j, pma, placed;
        placed := placed + [p];
        pma := pma + e.bufferSize;
        j := j + 1;
        PlaceAdvance(eps, n0, pma0, j0, pma1, placed0, j, pma, placed);
      }
      ok := true;
    }

    /** One endpoint: its number, its buffer address and its handler written into the slot of its direction. */
    method RouteNext(e: Endpoint, n: nat, pma: nat, ghost placed: seq<Endpoint>, ghost in0: seq<Callback>, ghost out0: seq<Callback>)
      returns (p: Endpoint)
      requires Valid() && 1 <= n < MAX_ENDPOINTS
      requires epIn[..] == Route(in0, placed, true) && epOut[..] == Route(out0, placed, false)
      modifies epIn, epOut
      ensures p == Placed(e, n, pma)
      ensures epIn[..] == Route(in0, placed + [p], true) && epOut[..] == Route(out0, placed + [p], false)
    {
      p := Placed(e, n, pma);
      assert (placed + [p])[..|placed|] == placed;
      if e.tx {
        epIn[n - 1] := p.callback;
      } else {
        epOut[n - 1] := p.callback;
      }
    }

    /**
     * The state of the part loop after `i` parts: those parts numbered,
     * laid out and routed, the running counts and the descriptor bytes
     * those of the first `i` parts.
     */
    ghost predicate Progress(newParts: seq<Part>, i: nat, interfaces: nat, endpoints: nat, pma: nat, in0: seq<Callback>, out0: seq<Callback>)
      reads this, epIn, epOut
    {
      Valid() && i <= |parts| == |newParts| && parts[i..] == newParts[i..]
      && (forall m | 0 <= m < i :: parts[m] == PlacedPart(newParts, m))
      && interfaces == InterfacesBefore(newParts, i)
      && endpoints == FirstNumber(newParts, i) <= MAX_ENDPOINTS
      && config == ConfigData(newParts, i) && |config| <= MAX_USB_DESCRIPTOR_DATA_SIZE
      && pma == FirstPma(newParts, i) <= PMA_MEMORY_SIZE
      && epIn[..] == Route(in0, PlacedFlat(newParts, i), true) && epOut[..] == Route(out0, PlacedFlat(newParts, i), false)
    }

    /**
     * `usb_generic_composite_setup` with its endpoint loop bounded by each
     * part's own table: true when every part fits, and then every part
     * numbered, laid out and routed.
     */
    method Setup(newParts: seq<Part>) returns (ok: bool)
      requires Valid()
      modifies this, epIn, epOut
      ensures Valid()
      ensures ok <==> Fits(newParts)
      ensures ok ==> |parts| == |newParts| && forall i | 0 <= i < |parts| :: parts[i] == PlacedPart(newParts, i)
      ensures ok ==> config == ConfigData(newParts, |newParts|) && totalLength == |config| + CONFIG_HEADER_SIZE
      ensures ok ==> numInterfaces == U8(InterfacesBefore(newParts, |newParts|)) && totalEndpoint == EndpointsBefore(newParts, |newParts|)
      ensures ok ==> epIn[..] == Routed(old(epIn[..]), newParts, true) && epOut[..] == Routed(old(epOut[..]), newParts, false)
    {
      ghost var in0, out0 := epIn[..], epOut[..];
      parts := newParts;
      config := [];
      var interfaces: nat := 0;
      var endpoints: nat := 1;
      var pma: nat := PMA_START;
      var i: nat := 0;
      while i < |parts|
        invariant Progress(newParts, i, interfaces, endpoints, pma, in0, out0)
      {
        ok, interfaces, endpoints, pma := SetupPart(newParts, i, interfaces, endpoints, pma, in0, out0);
        if !ok {
          return false;
        }
        i := i + 1;
      }
      FinishSetup(newParts, interfaces, endpoints, pma, in0, out0);
      return true;
    }

    /** After the last part: the unused slots, the header counts and `Total_Endpoint`. */
    method FinishSetup(newParts: seq<Part>, interfaces: nat, endpoints: nat, pma: nat, ghost in0: seq<Callback>, ghost out0: seq<Callback>)
      requires Progress(newParts, |newParts|, interfaces, endpoints, pma, in0, out0)
      modifies this, epIn, epOut
      ensures Valid() && parts == old(parts) && config == old(config)
      ensures numInterfaces == U8(InterfacesBefore(newParts, |newParts|)) && totalEndpoint == EndpointsBefore(newParts, |newParts|)
      ensures totalLength == |config| + CONFIG_HEADER_SIZE && Fits(newParts)
      ensures epIn[..] == Routed(in0, newParts, true) && epOut[..] == Routed(out0, newParts, false)
    {
      ghost var in1, out1 := epIn[..], epOut[..];
      FillUnused(endpoints);
      assert epIn[..] == Routed(in0, newParts, true) by {
        forall k | 0 <= k < MAX_ENDPOINTS - 1
          ensures epIn[k] == Routed(in0, newParts, true)[k]
        {
          assert k < endpoints - 1 ==> epIn[k] == in1[k];
        }
      }
      assert epOut[..] == Routed(out0, newParts, false) by {
        forall k | 0 <= k < MAX_ENDPOINTS - 1
          ensures epOut[k] == Routed(out0, newParts, false)[k]
        {
          assert k < endpoints - 1 ==> epOut[k] == out1[k];
        }
      }
      numInterfaces := U8(interfaces);
      totalLength := |config| + CONFIG_HEADER_SIZE;
      totalEndpoint := endpoints - 1;
    }

    /**
     * One pass of the part loop: the part's first interface, the two
     * capacity checks, its descriptor and its endpoints. On failure the
     * whole setup fails.
     */
    method SetupPart(newParts: seq<Part>, i: nat, interfaces: nat, endpoints: nat, pma: nat, ghost in0: seq<Callback>, ghost out0: seq<Callback>)
      returns (ok: bool, interfaces': nat, endpoints': nat, pma': nat)
      requires i < |newParts| && Progress(newParts, i, interfaces, endpoints, pma, in0, out0)
      modifies this, epIn, epOut
      ensures Valid()
      ensures !ok ==> !Fits(newParts)
      ensures ok ==> Progress(newParts, i + 1, interfaces', endpoints', pma', in0, out0)
    {
      var part := parts[i];
      assert part == newParts[i];
      parts := parts[i := part.(startInterface := U8(interfaces))];
      interfaces' := interfaces + part.numInterfaces;
      if endpoints + |part.endpoints| > MAX_ENDPOINTS {
        BeforeMonotone(newParts, i + 1, |newParts|);
        return false, interfaces', endpoints, pma;
      }
      if |config| + |part.descriptor| > MAX_USB_DESCRIPTOR_DATA_SIZE {
        BeforeMonotone(newParts, i + 1, |newParts|);
        return false, interfaces', endpoints, pma;
      }
      config := config + part.descriptor;
      ok, endpoints', pma' := PlacePart(newParts, i, interfaces, endpoints, pma, in0, out0);
    }

    /** The state between a part's descriptor and its endpoints: part `i` numbered and its descriptor appended. */
    ghost predicate Laid(newParts: seq<Part>, i: nat, interfaces: nat, endpoints: nat, pma: nat, in0: seq<Callback>, out0: seq<Callback>)
      reads this, epIn, epOut
    {
      Valid() && i < |parts| == |newParts| && parts[i + 1..] == newParts[i + 1..]
      && parts[i] == newParts[i].(startInterface := U8(interfaces))
      && (forall m | 0 <= m < i :: parts[m] == PlacedPart(newParts, m))
      && interfaces == InterfacesBefore(newParts, i)
      && endpoints == FirstNumber(newParts, i) && endpoints + |newParts[i].endpoints| <= MAX_ENDPOINTS
      && config == ConfigData(newParts, i + 1) && |config| <= MAX_USB_DESCRIPTOR_DATA_SIZE
      && pma == FirstPma(newParts, i) <= PMA_MEMORY_SIZE
      && epIn[..] == Route(in0, PlacedFlat(newParts, i), true) && epOut[..] == Route(out0, PlacedFlat(newParts, i), false)
    }

    /** The endpoint half of one pass: the packet-memory check, then the part's endpoints placed and routed. */
    method PlacePart(newParts: seq<Part>, i: nat, interfaces: nat, endpoints: nat, pma: nat, ghost in0: seq<Callback>, ghost out0: seq<Callback>)
      returns (ok: bool, endpoints': nat, pma': nat)
      requires Laid(newParts, i, interfaces, endpoints, pma, in0, out0)
      modifies this, epIn, epOut
      ensures Valid()
      ensures !ok ==> !Fits(newParts)
      ensures ok ==> Progress(newParts, i + 1, interfaces + newParts[i].numInterfaces, endpoints', pma', in0, out0)
    {
      var part := parts[i];
      var placed;
      ok, placed := PlaceEndpoints(part.endpoints, endpoints, pma);
      if !ok {
        BeforeMonotone(newParts, i + 1, |newParts|);
        return false, endpoints, pma;
      }
      RouteAppend(in0, PlacedFlat(newParts, i), placed, true);
      RouteAppend(out0, PlacedFlat(newParts, i), placed, false);
      parts := parts[i := parts[i].(endpoints := placed)];
      endpoints' := endpoints + |part.endpoints|;
      pma' := pma + Total(part.endpoints);
      assert parts[i + 1..] == newParts[i + 1..];
    }

    /** The slots above the last endpoint get the no-op handler. */
    method FillUnused(from: nat)
      requires Valid() && 1 <= from <= MAX_ENDPOINTS
      modifies epIn, epOut
      ensures forall k | from - 1 <= k < MAX_ENDPOINTS - 1 :: epIn[k] == Nop && epOut[k] == Nop
      ensures forall k | 0 <= k < MAX_ENDPOINTS - 1 && k < from - 1 :: epIn[k] == old(epIn[k]) && epOut[k] == old(epOut[k])
    {
      var n := from;
      while n < MAX_ENDPOINTS
        invariant from <= n <= MAX_ENDPOINTS
        invariant forall k | from - 1 <= k < MAX_ENDPOINTS - 1 && k < n - 1 :: epIn[k] == Nop && epOut[k] == Nop
        invariant forall k | 0 <= k < MAX_ENDPOINTS - 1 && (k < from - 1 || k >= n - 1) :: epIn[k] == old(epIn[k]) && epOut[k] == old(epOut[k])
      {
        epIn[n - 1] := Nop;
        epOut[n - 1] := Nop;
        n := n + 1;
      }
    }
  }

}

// Passing a control request to the registered parts in turn.
module UsbGenericRequests {
  import opened UsbCore

  /**
   * `usbDataSetup` and `usbNoDataSetup`: the parts' answers to a request,
   * asked in part order; the first one that is not UNSUPPORT is the answer.
   */
  method FirstAnswer(answers: seq<UsbResult>) returns (r: UsbResult)
    ensures r == Unsupport <==> forall i | 0 <= i < |answers| :: answers[i] == Unsupport
    ensures r != Unsupport ==> exists i | 0 <= i < |answers| :: answers[i] == r && forall k | 0 <= k < i :: answers[k] == Unsupport
  {
    var i := 0;
    while i < |answers|
      invariant 0 <= i <= |answers|
      invariant forall k | 0 <= k < i :: answers[k] == Unsupport
    {
      if answers[i] != Unsupport {
        return answers[i];
      }
      i := i + 1;
    }
    return Unsupport;
  }
}
