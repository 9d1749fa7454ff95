// The single wired X-Box 360 controller driver (usb_x360.c): the transmit
// state of its IN endpoint, the HID protocol value and its requests, the
// interface and string descriptor bounds.
module UsbX360 {
  import opened Prelude
  import opened UsbCore
  import X360Controllers

  /** The IN endpoint's packet size and the number of string descriptors. */
  const X360_TX_EPSIZE: nat := 0x40
  const N_STRING_DESCRIPTORS: nat := 4

  /** What a data setup request is answered with: the HID descriptor or the protocol byte. */
  datatype Reply = HidDescriptor | Protocol(data: seq<byte>)

  /** The standard GET_DESCRIPTOR of the HID descriptor, addressed to interface 0. */
  predicate HidDescriptorRequest(typeRecipient: byte, request: byte, wIndex0: byte, wValue1: byte)
  {
    request == GET_DESCRIPTOR && typeRecipient == STANDARD_INTERFACE && wIndex0 == 0 && wValue1 == HID_DESCRIPTOR_TYPE
  }

  /** `usbGetStringDescriptor`: NULL for any index past the four descriptors. */
  function StringDescriptor(index: byte): (r: Option<nat>)
    ensures r.Some? <==> index < N_STRING_DESCRIPTORS
    ensures r.Some? ==> r.value == index
  {
    StringDescriptorIndex(index, N_STRING_DESCRIPTORS)
  }

  class X360Port {
    var transmitting: bool
    var unsent: uint32
    var unread: uint32
    var rxOffset: uint32
    var protocolValue: uint32

    /** The static variables as the program starts. */
    constructor ()
      ensures !transmitting && unsent == 0 && unread == 0 && rxOffset == 0 && protocolValue == 0
    {
      transmitting := false;
      unsent := 0;
      unread := 0;
      rxOffset := 0;
      protocolValue := 0;
    }

    /**
     * `x360_tx(buf, len)`: nothing while the last packet is in flight;
     * otherwise `len` clamped to the endpoint's packet size is queued, the
     * endpoint becomes busy, and the queued count is returned.
     */
    method Tx(len: uint32) returns (r: uint32)
      modifies this
      ensures old(transmitting) ==> r == 0 && transmitting && unsent == old(unsent)
      ensures !old(transmitting) ==> r == Min(len, X360_TX_EPSIZE) && unsent == r && transmitting
      ensures unread == old(unread) && rxOffset == old(rxOffset) && protocolValue == old(protocolValue)
    {
      if transmitting {
        return 0;
      }
      var n := len;
      if n > X360_TX_EPSIZE {
        n := X360_TX_EPSIZE;
      }
      unsent := n;
      transmitting := true;
      r := n;
    }

    /** `hidDataTxCb`: the packet has gone. */
    method TxComplete()
      modifies this
      ensures unsent == 0 && !transmitting
      ensures unread == old(unread) && rxOffset == old(rxOffset) && protocolValue == old(protocolValue)
    {
      unsent := 0;
      transmitting := false;
    }

    /** `usbReset`: all transfer counters cleared; the protocol value is kept. */
    method Reset()
      modifies this
      ensures unread == 0 && unsent == 0 && rxOffset == 0 && !transmitting
      ensures protocolValue == old(protocolValue)
    {
      unread := 0;
      unsent := 0;
      rxOffset := 0;
      transmitting := false;
    }

    /**
     * `usbDataSetup`: the HID descriptor for its standard GET_DESCRIPTOR,
     * the protocol byte for the class GET_PROTOCOL, and UNSUPPORT (None)
     * for everything else.
     */
    function DataSetup(typeRecipient: byte, request: byte, wIndex0: byte, wValue1: byte): (r: Option<Reply>)
      reads this
      ensures r == Some(HidDescriptor) <==> HidDescriptorRequest(typeRecipient, request, wIndex0, wValue1)
      ensures (r.Some? && r.value.Protocol?) <==> X360Controllers.ClassRequest(typeRecipient, request, GET_PROTOCOL)
      ensures r.Some? && r.value.Protocol? ==> r.value.data == ProtocolData(protocolValue)
    {
      if request == GET_DESCRIPTOR && typeRecipient == STANDARD_INTERFACE && wIndex0 == 0 then
        if wValue1 == HID_DESCRIPTOR_TYPE then Some(HidDescriptor) else None
      else if X360Controllers.ClassRequest(typeRecipient, request, GET_PROTOCOL) then
        Some(Protocol(ProtocolData(protocolValue)))
      else None
    }

    /**
     * `usbNoDataSetup`: the class SET_PROTOCOL stores `wValue0` and
     * succeeds, after which GET_PROTOCOL reports that byte; every other
     * request is UNSUPPORT and changes nothing.
     */
    method NoDataSetup(typeRecipient: byte, request: byte, wValue0: byte) returns (r: UsbResult)
      modifies this
      ensures r == Success <==> X360Controllers.ClassRequest(typeRecipient, request, SET_PROTOCOL)
      ensures r != Success ==> r == Unsupport && protocolValue == old(protocolValue)
      ensures r == Success ==> protocolValue == wValue0
      ensures r == Success ==> DataSetup(CLASS_INTERFACE, GET_PROTOCOL, 0, 0) == Some(Protocol([wValue0]))
      ensures transmitting == old(transmitting) && unsent == old(unsent) && unread == old(unread) && rxOffset == old(rxOffset)
    {
      if X360Controllers.ClassRequest(typeRecipient, request, SET_PROTOCOL) {
        protocolValue := wValue0;
        ProtocolRoundTrip(wValue0);
        r := Success;
      } else {
        r := Unsupport;
      }
    }
  }
}
