// The monolithic HID + CDC-ACM composite driver: its serial and HID
// transmit queues, the DTR/RTS line state of SET_CONTROL_LINE_STATE
// (section 6.2.14 of the USB Class Definitions for Communication Devices
// 1.1), the feature/output buffer lookup and the string
// descriptor index check.
module UsbComposite {
  import opened Prelude
  import opened UsbCore
  import opened ByteRing

  const CONTROL_LINE_DTR: byte := 0x01
  const CONTROL_LINE_RTS: byte := 0x02
  const SET_COMM_FEATURE: byte := 0x02
  const SET_CONTROL_LINE_STATE: byte := 0x22

  /** The string descriptor table holds LangID, manufacturer and product. */
  const N_STRING_DESCRIPTORS: nat := 3

  /** The string descriptor `usbGetStringDescriptor` takes, as the guard is written. */
  function StringDescriptorIndexAsWritten(index: byte): (r: Option<nat>)
    ensures r.Some? <==> index <= N_STRING_DESCRIPTORS
    ensures r.Some? ==> r.value == index
  {
    if index > N_STRING_DESCRIPTORS then None else Some(index)
  }

  /** Index 3 passes the guard and selects a fourth entry of a three-entry table, which the bounded lookup refuses. */
  lemma StringDescriptorOverrun()
    ensures StringDescriptorIndexAsWritten(3) == Some(3)
    ensures 3 >= N_STRING_DESCRIPTORS
    ensures StringDescriptorIndex(3, N_STRING_DESCRIPTORS) == None
  {
  }

  /** Whether the stored control-line bits have the DTR (resp. RTS) bit set. */
  function LineBit(lines: byte, mask: byte): (r: byte)
    ensures r == 0 || r == 1
    ensures r == 1 <==> And8(lines, mask) != 0
  {
    if And8(lines, mask) != 0 then 1 else 0
  }

  /** SET_CONTROL_LINE_STATE keeps exactly the DTR and RTS bits of wValue. */
  function ControlLines(wValue0: byte): (r: byte)
    ensures r < 4
  {
    And8(wValue0, Or8(CONTROL_LINE_DTR, CONTROL_LINE_RTS))
  }

  /** What get_dtr and get_rts report after SET_CONTROL_LINE_STATE are bits 0 and 1 of wValue. */
  lemma ControlLinesReported(wValue0: byte)
    ensures LineBit(ControlLines(wValue0), CONTROL_LINE_DTR) == wValue0 % 2
    ensures LineBit(ControlLines(wValue0), CONTROL_LINE_RTS) == (wValue0 / 2) % 2
  {
    var v := wValue0 as bv8;
    assert (v & 3) & 1 == v & 1 && (v & 3) & 2 == v & 2;
    assert (v & 1) as int == wValue0 % 2 by {
      assert v & 1 == v % 2;
    }
    assert ((v & 2) != 0) == ((wValue0 / 2) % 2 == 1) by {
      assert v & 2 == ((v / 2) % 2) * 2;
    }
  }

  /**
   * `get_buffer_index`: the first of the `count` buffers whose report ID is
   * `reportID`, or -1.
   */
  method GetBufferIndex(ids: seq<byte>, count: int, reportID: byte) returns (i: int)
    requires count <= |ids|
    ensures i == -1 || 0 <= i < count
    ensures i >= 0 ==> ids[i] == reportID && forall j :: 0 <= j < i ==> ids[j] != reportID
    ensures i == -1 ==> forall j :: 0 <= j < count ==> ids[j] != reportID
  {
    var k := 0;
    while k < count
      invariant 0 <= k <= |ids| && (count >= 0 ==> k <= count)
      invariant forall j :: 0 <= j < k ==> ids[j] != reportID
    {
      if reportID == ids[k] {
        return k;
      }
      k := k + 1;
    }
    return -1;
  }

  /** A feature or output report buffer of this driver: its bytes, report ID and state. */
  datatype ReportBuffer = ReportBuffer(data: seq<byte>, reportID: byte, state: byte)

  const BUFFER_EMPTY: byte := 0

  predicate Labellable(bufs: seq<ReportBuffer>)
  {
    forall i :: 0 <= i < |bufs| ==> |bufs[i].data| >= 1
  }

  /**
   * `usb_hid_set_buffers` as written: every buffer is emptied and its byte
   * 0 set to the report ID of the FEATURE table's entry at the same index,
   * whichever table is being installed.
   */
  function SetBuffersAsWritten(reportType: byte, bufs: seq<ReportBuffer>, features: seq<ReportBuffer>): (r: seq<ReportBuffer>)
    requires Labellable(bufs)
    requires reportType != REPORT_TYPE_FEATURE ==> |bufs| <= |features|
    ensures |r| == |bufs|
    ensures forall i :: 0 <= i < |r| ==> |r[i].data| == |bufs[i].data| && r[i].state == BUFFER_EMPTY
    ensures reportType == REPORT_TYPE_FEATURE ==> forall i :: 0 <= i < |r| ==> r[i].data[0] == bufs[i].reportID
  {
    var table := if reportType == REPORT_TYPE_FEATURE then bufs else features;
    seq(|bufs|, i requires 0 <= i < |bufs| =>
      bufs[i].(state := BUFFER_EMPTY, data := bufs[i].data[0 := table[i].reportID]))
  }

  /** Installing an output buffer with ID 2 beside a feature buffer with ID 1 labels it 1. */
  lemma OutputBufferMislabelled()
    ensures SetBuffersAsWritten(REPORT_TYPE_OUTPUT, [ReportBuffer([0, 0], 2, 1)], [ReportBuffer([0], 1, 0)])[0].data[0] == 1
  {
  }

  /** An emptied buffer labelled with its own report ID, as installing it is meant to leave it. */
  function Installed(b: ReportBuffer): (r: ReportBuffer)
    requires |b.data| >= 1
    ensures |r.data| == |b.data| && r.data[0] == b.reportID && r.data[1..] == b.data[1..]
    ensures r.reportID == b.reportID && r.state == BUFFER_EMPTY
  {
    b.(state := BUFFER_EMPTY, data := b.data[0 := b.reportID])
  }

  class Composite {
    /** `vcomBufferTx`, `vcomBufferRx` and `hidBufferTx` with their indices. */
    const vcomTx: Ring
    const vcomRx: Ring
    const hidTx: Ring
    /** `line_dtr_rts`. */
    var lineDtrRts: byte
    /** `ProtocolValue`, set by SET_PROTOCOL. */
    var protocolValue: byte
    var featureBuffers: seq<ReportBuffer>
    var outputBuffers: seq<ReportBuffer>

    ghost predicate Valid()
      reads this, vcomTx, vcomRx, hidTx
    {
      vcomTx.Valid() && vcomRx.Valid() && hidTx.Valid()
      && vcomTx != vcomRx && vcomTx != hidTx && vcomRx != hidTx
      && vcomTx.buf != vcomRx.buf && vcomTx.buf != hidTx.buf && vcomRx.buf != hidTx.buf
    }

    constructor()
      ensures Valid() && fresh(vcomTx) && fresh(vcomRx) && fresh(hidTx)
      ensures fresh(vcomTx.buf) && fresh(vcomRx.buf) && fresh(hidTx.buf)
      ensures vcomTx.Contents() == [] && vcomRx.Contents() == [] && hidTx.Contents() == []
      ensures lineDtrRts == 0 && protocolValue == 0
      ensures featureBuffers == [] && outputBuffers == []
    {
      vcomTx := new Ring();
      vcomRx := new Ring();
      hidTx := new Ring();
      lineDtrRts := 0;
      protocolValue := 0;
      featureBuffers := [];
      outputBuffers := [];
    }

    /** `composite_cdcacm_get_dtr`. */
    function GetDtr(): (r: byte)
      reads this
      ensures r == 0 || r == 1
      ensures r == 1 <==> And8(lineDtrRts, CONTROL_LINE_DTR) != 0
    {
      LineBit(lineDtrRts, CONTROL_LINE_DTR)
    }

    /** `composite_cdcacm_get_rts`. */
    function GetRts(): (r: byte)
      reads this
      ensures r == 0 || r == 1
      ensures r == 1 <==> And8(lineDtrRts, CONTROL_LINE_RTS) != 0
    {
      LineBit(lineDtrRts, CONTROL_LINE_RTS)
    }

    /**
     * `usbNoDataSetup`: class requests to the interface.  SET_COMM_FEATURE
     * is accepted and ignored, SET_CONTROL_LINE_STATE records DTR/RTS,
     * SET_PROTOCOL records wValue0; everything else is unsupported.
     */
    method NoDataSetup(requestType: byte, request: byte, wValue0: byte) returns (r: UsbResult)
      modifies this
      ensures requestType == CLASS_INTERFACE && request == SET_CONTROL_LINE_STATE ==> lineDtrRts == ControlLines(wValue0)
      ensures !(requestType == CLASS_INTERFACE && request == SET_CONTROL_LINE_STATE) ==> lineDtrRts == old(lineDtrRts)
      ensures requestType == CLASS_INTERFACE && request == SET_PROTOCOL ==> protocolValue == wValue0
      ensures !(requestType == CLASS_INTERFACE && request == SET_PROTOCOL) ==> protocolValue == old(protocolValue)
      ensures r == Success <==> requestType == CLASS_INTERFACE && request in {SET_COMM_FEATURE, SET_CONTROL_LINE_STATE, SET_PROTOCOL}
      ensures r == Success || r == Unsupport
      ensures featureBuffers == old(featureBuffers) && outputBuffers == old(outputBuffers)
    {
      r := Unsupport;
      if requestType == CLASS_INTERFACE {
        if request == SET_COMM_FEATURE {
          r := Success;
        } else if request == SET_CONTROL_LINE_STATE {
          lineDtrRts := ControlLines(wValue0);
          r := Success;
        } else if request == SET_PROTOCOL {
          protocolValue := wValue0;
          r := Success;
        }
      }
    }

    /**
     * `usb_hid_set_buffers` as intended: install `bufs` as the feature table
     * (for FEATURE) or the output table (any other type), each buffer
     * emptied and labelled with its own report ID.
     */
    method SetBuffers(reportType: byte, bufs: seq<ReportBuffer>)
      requires Labellable(bufs)
      modifies this
      ensures reportType == REPORT_TYPE_FEATURE ==> outputBuffers == old(outputBuffers)
      ensures reportType != REPORT_TYPE_FEATURE ==> featureBuffers == old(featureBuffers)
      ensures var table := if reportType == REPORT_TYPE_FEATURE then featureBuffers else outputBuffers;
        |table| == |bufs| && forall i :: 0 <= i < |bufs| ==> table[i] == Installed(bufs[i])
      ensures lineDtrRts == old(lineDtrRts) && protocolValue == old(protocolValue)
    {
      var out: seq<ReportBuffer> := [];
      var i := 0;
      while i < |bufs|
        invariant 0 <= i <= |bufs| && |out| == i
        invariant forall j :: 0 <= j < i ==> out[j] == Installed(bufs[j])
      {
        out := out + [Installed(bufs[i])];
        i := i + 1;
      }
      if reportType == REPORT_TYPE_FEATURE {
        featureBuffers := out;
      } else {
        outputBuffers := out;
      }
    }
  }
}
