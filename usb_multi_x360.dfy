// The wired multi-controller X-Box 360 part (usb_multi_x360.c): the same
// table of controllers as the wireless part with its own descriptor
// template and its own receive commands.
module UsbMultiX360 {
  import opened Prelude
  import opened X360Controllers

  /**
   * `X360Descriptor_Config`: the interface descriptor, the 17-byte vendor
   * descriptor, then the IN and OUT endpoint descriptors, all unpatched.
   */
  const INTERFACE: seq<byte> := [9, 4, 0, 0, 2, 0xFF, 0x5D, 0x01, 0]
  const VENDOR: seq<byte> := [17, 33, 0, 1, 1, 37, 129, 20, 0, 0, 0, 0, 19, 2, 8, 0, 0]
  const DATA_IN: seq<byte> := [7, 5, 0x80, 3, 0x20, 0, 4]
  const DATA_OUT: seq<byte> := [7, 5, 0x00, 3, 0x20, 0, 8]
  const CONFIG_SIZE: nat := 40

  /**
   * The patch points: the interface number at 2, `unknown_descriptor1[6]`
   * at 15 and `[13]` at 22, the IN address at 28 and the OUT address at 35.
   */
  const LAYOUT: Layout := Layout(INTERFACE + VENDOR + DATA_IN + DATA_OUT, 2, 28, 35, 15, 22)

  lemma LayoutWellLaid()
    ensures WellLaid(LAYOUT) && |LAYOUT.template| == CONFIG_SIZE
  {
  }

  /** The controller table of the part, sized by its descriptor copy. */
  method NewTable() returns (t: ControllerTable)
    ensures fresh(t) && fresh(t.controllers) && t.Valid() && t.configSize == CONFIG_SIZE
    ensures t.numControllers == MAX_CONTROLLERS && t.descriptorSize == MAX_CONTROLLERS * CONFIG_SIZE
    ensures forall i | 0 <= i < MAX_CONTROLLERS :: t.controllers[i] == ZERO
  {
    t := new ControllerTable(CONFIG_SIZE);
  }

  /** `getX360PartDescriptor`: one patched copy per controller in use. */
  method PartDescriptor(out: array<byte>, startInterface: byte, addresses: seq<byte>, t: ControllerTable)
    requires t.Valid() && 2 * t.numControllers <= |addresses| && t.numControllers * CONFIG_SIZE <= out.Length
    modifies out
    ensures out[..t.numControllers * CONFIG_SIZE] == Config(LAYOUT, startInterface, addresses, t.numControllers)
    ensures out[t.numControllers * CONFIG_SIZE..] == old(out[t.numControllers * CONFIG_SIZE..])
  {
    LayoutWellLaid();
    WritePartDescriptor(out, LAYOUT, startInterface, addresses, t.numControllers);
  }

  /** The bytes of copy `i`: at offset `40 i`, controller `i`'s interface number and endpoints. */
  lemma DescriptorCopy(startInterface: byte, addresses: seq<byte>, n: nat, i: nat)
    requires 2 * n <= |addresses| && i < n
    requires TxEndpoint(addresses, i) < 0x80
    ensures var d := Config(LAYOUT, startInterface, addresses, n);
      var tx, rx := TxEndpoint(addresses, i), RxEndpoint(addresses, i);
      && |d| == n * CONFIG_SIZE
      && d[CONFIG_SIZE * i + 2] == U8(startInterface + i)
      && d[CONFIG_SIZE * i + 15] == 0x80 + tx && d[CONFIG_SIZE * i + 28] == 0x80 + tx
      && d[CONFIG_SIZE * i + 22] == rx && d[CONFIG_SIZE * i + 35] == rx
  {
    LayoutWellLaid();
    ConfigLength(LAYOUT, startInterface, addresses, n);
    ConfigLength(LAYOUT, startInterface, addresses, i);
    ConfigCopy(LAYOUT, startInterface, addresses, n, i);
    PatchedFields(LAYOUT, startInterface, i, TxEndpoint(addresses, i), RxEndpoint(addresses, i));
  }

  /**
   * `x360DataRxCb`: a 3-byte packet 01 03 xx sets the LEDs to xx, an
   * 8-byte packet starting 00 08 sets the motors to bytes 3 and 4; each
   * reaches its callback only when one is set.
   */
  function RxCalls(p: seq<byte>, c: Controller): (calls: seq<Call>)
    ensures |calls| <= 1
    ensures calls != [] ==> (|p| == 3 && p[0] == 1 && p[1] == 3) || (|p| == 8 && p[0] == 0 && p[1] == 8)
    ensures |p| == 3 && p[0] == 1 && p[1] == 3 ==> calls == if c.led.Hook? then [Led(c.led.id, p[2])] else []
    ensures |p| == 8 && p[0] == 0 && p[1] == 8 ==> calls == if c.rumble.Hook? then [Rumble(c.rumble.id, p[3], p[4])] else []
  {
    if |p| == 3 then
      (if c.led.Hook? && p[0] == 1 && p[1] == 3 then [Led(c.led.id, p[2])] else [])
    else if |p| == 8 then
      (if c.rumble.Hook? && p[0] == 0 && p[1] == 8 then [Rumble(c.rumble.id, p[3], p[4])] else [])
    else []
  }
}
