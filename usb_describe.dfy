// The compile-time descriptor patcher of the composite-device example: a
// component's configuration descriptor is written with interface and
// endpoint numbers relative to the component, marked by a flag bit above
// the byte, and each marked byte is moved by the component's first
// interface or endpoint number when the descriptor is built.
module UsbDescribe {
  import opened Prelude

  const ENDPOINT_MASK: nat := 0x1000
  const INTERFACE_MASK: nat := 0x2000

  /** `x & ENDPOINT_MASK`: bit 12. */
  predicate EndpointMarked(x: uint32)
  {
    (x / ENDPOINT_MASK) % 2 == 1
  }

  /** `x & INTERFACE_MASK`: bit 13. */
  predicate InterfaceMarked(x: uint32)
  {
    (x / INTERFACE_MASK) % 2 == 1
  }

  /** `convertByte(x, interfaceStart, endpointStart)`: the low byte moved by its start when marked, returned as `uint8`. */
  function ConvertByte(x: uint32, interfaceStart: uint32, endpointStart: uint32): (r: byte)
    ensures EndpointMarked(x) ==> (r + 0x100 - x % 0x100) % 0x100 == endpointStart % 0x100
    ensures !EndpointMarked(x) && InterfaceMarked(x) ==> (r + 0x100 - x % 0x100) % 0x100 == interfaceStart % 0x100
    ensures !EndpointMarked(x) && !InterfaceMarked(x) ==> r == x % 0x100
  {
    if EndpointMarked(x) then U8(x % 0x100 + endpointStart)
    else if InterfaceMarked(x) then U8(x % 0x100 + interfaceStart)
    else U8(x)
  }

  /** `USBCompositeComponent<interfaces, endpoints, interfaceStart, endpointStart, args...>`. */
  datatype Component = Component(interfaces: nat, endpoints: nat, interfaceStart: byte, endpointStart: byte,
                                 args: seq<uint32>)

  /** `descriptor_config_size`. */
  function DescriptorConfigSize(c: Component): nat
  {
    |c.args|
  }

  /** `descriptor_config[] = { convertByte(args)... }`. */
  function DescriptorConfig(c: Component): (d: seq<byte>)
    ensures |d| == DescriptorConfigSize(c)
  {
    seq(|c.args|, k requires 0 <= k < |c.args| => ConvertByte(c.args[k], c.interfaceStart, c.endpointStart))
  }

  /**
   * Relocation: an endpoint-marked byte follows the endpoint start and
   * ignores the interface start, an interface-only-marked byte follows the
   * interface start and ignores the endpoint start, and an unmarked byte
   * is its own low byte whatever the starts.  Moving a start by `d` moves
   * the bytes that follow it by `d`, modulo 256.
   */
  lemma Relocation(x: uint32, i: uint32, e: uint32, i': uint32, e': uint32)
    ensures EndpointMarked(x) ==> ConvertByte(x, i', e') == U8(ConvertByte(x, i, e) + e' - e)
    ensures !EndpointMarked(x) && InterfaceMarked(x) ==> ConvertByte(x, i', e') == U8(ConvertByte(x, i, e) + i' - i)
    ensures !EndpointMarked(x) && !InterfaceMarked(x) ==> ConvertByte(x, i', e') == x % 0x100
  {
    var lo := x % 0x100;
    if EndpointMarked(x) {
      U8Shift(lo + e, e' - e);
    } else if InterfaceMarked(x) {
      U8Shift(lo + i, i' - i);
    }
  }

  lemma U8Shift(a: int, d: int)
    ensures U8(U8(a) + d) == U8(a + d)
  {
    DivModUnique(U8(a) + d + 0x100 * (a / 0x100), 0x100, (a + d) / 0x100, (a + d) % 0x100);
  }

  /** The same relocation, byte by byte, for a whole descriptor built at other starts. */
  lemma ConfigRelocation(c: Component, i': byte, e': byte, k: nat)
    requires k < |c.args|
    ensures var d, d' := DescriptorConfig(c), DescriptorConfig(c.(interfaceStart := i', endpointStart := e'));
      && |d'| == |d|
      && (EndpointMarked(c.args[k]) ==> d'[k] == U8(d[k] + e' - c.endpointStart))
      && (!EndpointMarked(c.args[k]) && InterfaceMarked(c.args[k]) ==> d'[k] == U8(d[k] + i' - c.interfaceStart))
      && (!EndpointMarked(c.args[k]) && !InterfaceMarked(c.args[k]) ==> d'[k] == d[k])
  {
    Relocation(c.args[k], c.interfaceStart, c.endpointStart, i', e');
  }

  /** `alpha`: one interface and two endpoints, starting at interface 10 and endpoint 20. */
  const ALPHA := Component(1, 2, 10, 20, [1, 2 + ENDPOINT_MASK, 3 + INTERFACE_MASK])

  /** `alpha` has three descriptor bytes, the endpoint-marked 2 becomes 22 and the interface-marked 3 becomes 13. */
  lemma AlphaConfig()
    ensures DescriptorConfigSize(ALPHA) == 3
    ensures DescriptorConfig(ALPHA) == [1, 22, 13]
  {
    var d := DescriptorConfig(ALPHA);
    assert d[0] == ConvertByte(1, 10, 20) == 1;
    assert d[1] == ConvertByte(0x1002, 10, 20) == 22;
    assert d[2] == ConvertByte(0x2003, 10, 20) == 13;
  }
}
