// The wireless X-Box 360 receiver part (usb_x360w.c): one vendor interface
// and two interrupt endpoints per controller, up to four controllers.
module UsbX360W {
  import opened Prelude
  import opened X360Controllers

  /**
   * `X360WDescriptor_Config`: the interface descriptor, the 20-byte vendor
   * descriptor, then the IN and OUT endpoint descriptors, all unpatched.
   */
  const INTERFACE: seq<byte> := [9, 4, 0, 0, 2, 0xFF, 0x5D, 129, 0]
  const VENDOR: seq<byte> := [0x14, 0x22, 0x00, 0x01, 0x13, 0x81, 0x1D, 0x00, 0x17, 0x01, 0x02, 0x08, 0x13, 0x01, 0x0C, 0x00, 0x0C, 0x01, 0x02, 0x08]
  const DATA_IN: seq<byte> := [7, 5, 0x80, 3, 0x20, 0, 4]
  const DATA_OUT: seq<byte> := [7, 5, 0x00, 3, 0x20, 0, 8]
  const CONFIG_SIZE: nat := 43

  /**
   * The patch points: the interface number at 2, `unknown_descriptor1[5]`
   * at 14 and `[13]` at 22, the IN address at 31 and the OUT address at 38.
   */
  const LAYOUT: Layout := Layout(INTERFACE + VENDOR + DATA_IN + DATA_OUT, 2, 31, 38, 14, 22)

  lemma LayoutWellLaid()
    ensures WellLaid(LAYOUT) && |LAYOUT.template| == CONFIG_SIZE
  {
  }

  /** The controller table of the part, sized by its descriptor copy. */
  method NewTable() returns (t: ControllerTable)
    ensures fresh(t) && fresh(t.controllers) && t.Valid() && t.configSize == CONFIG_SIZE
    ensures t.numControllers == MAX_CONTROLLERS && t.descriptorSize == MAX_CONTROLLERS * CONFIG_SIZE
    ensures forall i | 0 <= i < MAX_CONTROLLERS :: t.controllers[i] == ZERO
  {
    t := new ControllerTable(CONFIG_SIZE);
  }

  /**
   * `getX360WPartDescriptor`: one patched copy per controller in use, copy
   * `i` numbering its interface `startInterface + i` and naming the
   * endpoints `TX_ENDP(i)` and `RX_ENDP(i)`.
   */
  method PartDescriptor(out: array<byte>, startInterface: byte, addresses: seq<byte>, t: ControllerTable)
    requires t.Valid() && 2 * t.numControllers <= |addresses| && t.numControllers * CONFIG_SIZE <= out.Length
    modifies out
    ensures out[..t.numControllers * CONFIG_SIZE] == Config(LAYOUT, startInterface, addresses, t.numControllers)
    ensures out[t.numControllers * CONFIG_SIZE..] == old(out[t.numControllers * CONFIG_SIZE..])
  {
    LayoutWellLaid();
    WritePartDescriptor(out, LAYOUT, startInterface, addresses, t.numControllers);
  }

  /**
   * The bytes of copy `i` in the part descriptor: at offset `43 i`, the
   * interface number, both endpoint addresses and both vendor references
   * of controller `i`.
   */
  lemma DescriptorCopy(startInterface: byte, addresses: seq<byte>, n: nat, i: nat)
    requires 2 * n <= |addresses| && i < n
    requires TxEndpoint(addresses, i) < 0x80
    ensures var d := Config(LAYOUT, startInterface, addresses, n);
      var tx, rx := TxEndpoint(addresses, i), RxEndpoint(addresses, i);
      && |d| == n * CONFIG_SIZE
      && d[CONFIG_SIZE * i + 2] == U8(startInterface + i)
      && d[CONFIG_SIZE * i + 14] == 0x80 + tx && d[CONFIG_SIZE * i + 31] == 0x80 + tx
      && d[CONFIG_SIZE * i + 22] == rx && d[CONFIG_SIZE * i + 38] == rx
  {
    LayoutWellLaid();
    ConfigLength(LAYOUT, startInterface, addresses, n);
    ConfigLength(LAYOUT, startInterface, addresses, i);
    ConfigCopy(LAYOUT, startInterface, addresses, n, i);
    PatchedFields(LAYOUT, startInterface, i, TxEndpoint(addresses, i), RxEndpoint(addresses, i));
  }

  /**
   * `x360WDataRxCb`: a 12-byte packet starting 00 00 is an LED command
   * with the pattern in byte 3, one starting 00 01 a rumble command with
   * the motor speeds in bytes 5 and 6; each reaches its callback only when
   * one is set, and packets of any other size call nothing.
   */
  function RxCalls(p: seq<byte>, c: Controller): (calls: seq<Call>)
    ensures |calls| <= 1
    ensures calls != [] ==> |p| == 12 && p[0] == 0 && (p[1] == 0 || p[1] == 1)
    ensures |p| == 12 && p[0] == 0 && p[1] == 0 ==> calls == if c.led.Hook? then [Led(c.led.id, p[3])] else []
    ensures |p| == 12 && p[0] == 0 && p[1] == 1 ==> calls == if c.rumble.Hook? then [Rumble(c.rumble.id, p[5], p[6])] else []
  {
    if |p| == 12 then
      (if c.led.Hook? && p[0] == 0 && p[1] == 0 then [Led(c.led.id, p[3])] else [])
      + (if c.rumble.Hook? && p[0] == 0 && p[1] == 1 then [Rumble(c.rumble.id, p[5], p[6])] else [])
    else []
  }
}
