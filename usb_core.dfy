// Control-request vocabulary shared by the class drivers: the result codes
// a setup handler returns and the request and descriptor codes of
// section 9.4 of the USB 2.0 specification and section 7.2 of HID 1.11.
module UsbCore {
  import opened Prelude

  /** The outcome of a setup handler. */
  datatype UsbResult = Success | Error | Unsupport | NotReady

  /** `bmRequestType` with its direction bit masked off (section 9.3.1 of USB 2.0). */
  const STANDARD_INTERFACE: byte := 0x01
  const CLASS_INTERFACE: byte := 0x21

  /** Standard request codes (table 9-4 of USB 2.0). */
  const GET_DESCRIPTOR: byte := 6

  /** HID class request codes (section 7.2 of HID 1.11). */
  const GET_REPORT: byte := 1
  const GET_PROTOCOL: byte := 3
  const SET_REPORT: byte := 9
  const SET_PROTOCOL: byte := 11

  /** HID report types carried in the high byte of wValue. */
  const REPORT_TYPE_INPUT: byte := 1
  const REPORT_TYPE_OUTPUT: byte := 2
  const REPORT_TYPE_FEATURE: byte := 3

  /** HID class descriptor types. */
  const HID_DESCRIPTOR_TYPE: byte := 0x21
  const REPORT_DESCRIPTOR: byte := 0x22

  /** The descriptor type of a string descriptor (table 9-5 of USB 2.0). */
  const STRING_DESCRIPTOR: byte := 3

  /**
   * `usbGetInterfaceSetting` of the CDC/HID composite, MIDI and X-Box parts:
   * only alternate setting 0 of interfaces 0 and 1 exists.
   */
  function GetInterfaceSetting(iface: byte, alt: byte): (r: UsbResult)
    ensures r == Success || r == Unsupport
    ensures r == Success <==> alt == 0 && iface <= 1
  {
    if alt > 0 then Unsupport
    else if iface > 1 then Unsupport
    else Success
  }

  /**
   * `usbGetStringDescriptor`: the entry `wValue0` of a table of `count`
   * string descriptors, or NULL past its end.
   */
  function StringDescriptorIndex(index: byte, count: nat): (r: Option<nat>)
    ensures r.Some? <==> index < count
    ensures r.Some? ==> r.value == index && r.value < count
  {
    if index >= count then None else Some(index)
  }

  /**
   * The data stage of GET_PROTOCOL in the parts that keep a 32-bit protocol
   * value: one byte is sent from the value's address, so the host reads its
   * low byte.
   */
  function ProtocolData(v: uint32): (r: seq<byte>)
    ensures |r| == 1 && r[0] == LE32Bytes(v)[0]
  {
    [v % 0x100]
  }

  /** A protocol stored from `wValue0` is the byte GET_PROTOCOL reports back. */
  lemma ProtocolRoundTrip(w: byte)
    ensures ProtocolData(w) == [w]
  {
  }
}
