// The HID part of the composite device: its table of feature and output
// report buffers filled by SET_REPORT (section 7.2.2 of HID 1.11) and
// read by the sketch, GET_REPORT for feature reports, SET_PROTOCOL, the
// transmit endpoint size and the transmit queue.
module UsbHid {
  import opened Prelude
  import opened UsbCore
  import opened ByteRing

  const MAX_HID_BUFFERS: nat := 8

  /** Mode bits of a buffer. */
  const MODE_NO_WAIT: byte := 1
  const MODE_OUTPUT: byte := 2

  /** Buffer states. */
  const BUFFER_EMPTY: byte := 0
  const BUFFER_UNREAD: byte := 1
  const BUFFER_READ: byte := 2

  /**
   * `HIDBuffer_t`: the caller's report memory (`None` for a NULL pointer),
   * its size, the report ID it serves, its mode bits and its state.
   */
  datatype HidBuffer = HidBuffer(buffer: Option<seq<byte>>, bufferSize: byte, reportID: byte, mode: byte, state: byte)

  /** A present buffer owns `bufferSize` bytes, at least the one that holds the report ID. */
  predicate WellSized(b: HidBuffer)
  {
    b.buffer.Some? ==> |b.buffer.value| == b.bufferSize && b.bufferSize >= 1
  }

  predicate WellSizedTable(t: seq<HidBuffer>)
  {
    forall i :: 0 <= i < |t| ==> WellSized(t[i])
  }

  /** Bit 1 of the mode (`mode & HID_BUFFER_MODE_OUTPUT`): the buffer serves output reports. */
  predicate IsOutput(mode: byte)
  {
    (mode / 2) % 2 == 1
  }

  /** Bit 0 of the mode clear (`(mode & HID_BUFFER_MODE_NO_WAIT) == 0`): SET_REPORT must wait until the sketch reads. */
  predicate WaitsForRead(mode: byte)
  {
    mode % 2 == 0
  }

  /** `mode` with its output bit set (`|=`) or cleared (`&= ~`) and the other bits kept. */
  function WithOutputBit(mode: byte, on: bool): (r: byte)
    ensures IsOutput(r) == on
    ensures WaitsForRead(r) == WaitsForRead(mode) && r / 4 == mode / 4
  {
    if IsOutput(mode) == on then mode else if on then mode + 2 else mode - 2
  }

  /** Whether a buffer's output bit agrees with `reportType`. */
  predicate Serves(mode: byte, reportType: byte)
  {
    IsOutput(mode) <==> reportType == REPORT_TYPE_OUTPUT
  }

  /** The condition `usb_hid_find_buffer` checks for one slot. */
  predicate Matches(b: HidBuffer, reportType: byte, reportID: byte)
  {
    b.buffer.Some? && Serves(b.mode, reportType) && b.reportID == reportID
  }

  /** The first slot from `i` on that matches, as `usb_hid_find_buffer` scans. */
  function FindFrom(t: seq<HidBuffer>, reportType: byte, reportID: byte, i: nat): (r: Option<nat>)
    decreases |t| - i
    ensures r.Some? ==> i <= r.value < |t| && Matches(t[r.value], reportType, reportID)
    ensures r.Some? ==> forall j :: i <= j < r.value ==> !Matches(t[j], reportType, reportID)
    ensures r.None? ==> forall j :: i <= j < |t| ==> !Matches(t[j], reportType, reportID)
  {
    if i >= |t| then None
    else if Matches(t[i], reportType, reportID) then Some(i)
    else FindFrom(t, reportType, reportID, i + 1)
  }

  function Find(t: seq<HidBuffer>, reportType: byte, reportID: byte): Option<nat>
  {
    FindFrom(t, reportType, reportID, 0)
  }

  /** The first slot from `i` on whose buffer is NULL. */
  function FreeFrom(t: seq<HidBuffer>, i: nat): (r: Option<nat>)
    decreases |t| - i
    ensures r.Some? ==> i <= r.value < |t| && t[r.value].buffer.None?
    ensures r.Some? ==> forall j :: i <= j < r.value ==> t[j].buffer.Some?
    ensures r.None? ==> forall j :: i <= j < |t| ==> t[j].buffer.Some?
  {
    if i >= |t| then None
    else if t[i].buffer.None? then Some(i)
    else FreeFrom(t, i + 1)
  }

  /**
   * The buffer as `usb_hid_add_buffer` prepares it before storing it: its
   * output bit set exactly for OUTPUT, its memory zeroed but for the report
   * ID in byte 0.
   */
  function Prepared(reportType: byte, b: HidBuffer): (r: HidBuffer)
    requires b.bufferSize >= 1
    ensures r.buffer == Some([b.reportID] + Zeros(b.bufferSize - 1)) && WellSized(r)
    ensures Matches(r, reportType, b.reportID)
    ensures r.bufferSize == b.bufferSize && r.reportID == b.reportID && r.state == b.state
  {
    var mode := WithOutputBit(b.mode, reportType == MODE_OUTPUT);
    b.(mode := mode, buffer := Some([b.reportID] + Zeros(b.bufferSize - 1)))
  }

  /**
   * `usb_hid_add_buffer` on a table value: the prepared buffer replaces the
   * first slot serving the same type and ID, else fills the first free
   * slot; the flag is 0 when neither exists.
   */
  function Added(t: seq<HidBuffer>, reportType: byte, b: HidBuffer): (r: (seq<HidBuffer>, byte))
    requires b.bufferSize >= 1
  {
    var p := Prepared(reportType, b);
    match Find(t, reportType, b.reportID)
    case Some(i) => (t[i := p], 1)
    case None =>
      match FreeFrom(t, 0)
      case Some(i) => (t[i := p], 1)
      case None => (t, 0)
  }

  /** After a successful add, looking the ID up again finds exactly the buffer just added. */
  lemma AddedIsFound(t: seq<HidBuffer>, reportType: byte, b: HidBuffer)
    requires b.bufferSize >= 1 && Added(t, reportType, b).1 == 1
    ensures var t' := Added(t, reportType, b).0;
      Find(t', reportType, b.reportID).Some? && t'[Find(t', reportType, b.reportID).value] == Prepared(reportType, b)
  {
    var p := Prepared(reportType, b);
    var t' := Added(t, reportType, b).0;
    var i := if Find(t, reportType, b.reportID).Some? then Find(t, reportType, b.reportID).value else FreeFrom(t, 0).value;
    assert t' == t[i := p];
    assert forall j :: 0 <= j < i ==> !Matches(t'[j], reportType, b.reportID);
    assert Matches(t'[i], reportType, b.reportID);
    FindFirst(t', reportType, b.reportID, i);
  }

  /** A matching slot with no match before it is what the scan returns. */
  lemma {:induction false} FindFirst(t: seq<HidBuffer>, reportType: byte, reportID: byte, i: nat)
    requires i < |t| && Matches(t[i], reportType, reportID)
    requires forall j :: 0 <= j < i ==> !Matches(t[j], reportType, reportID)
    ensures Find(t, reportType, reportID) == Some(i)
  {
    var r := Find(t, reportType, reportID);
    assert r.Some?;
    assert !(r.value < i) && !(i < r.value);
  }

  /** Adding fails exactly when no slot serves the ID and none is free, and then changes nothing. */
  lemma AddFailsOnlyWhenFull(t: seq<HidBuffer>, reportType: byte, b: HidBuffer)
    requires b.bufferSize >= 1
    ensures Added(t, reportType, b).1 == 0 <==>
      (forall j :: 0 <= j < |t| ==> !Matches(t[j], reportType, b.reportID) && t[j].buffer.Some?)
    ensures Added(t, reportType, b).1 == 0 ==> Added(t, reportType, b).0 == t
  {
    if Find(t, reportType, b.reportID).None? && FreeFrom(t, 0).Some? {
      var i := FreeFrom(t, 0).value;
      assert t[i].buffer.None?;
    }
  }

  /** `usb_hid_clear_buffers` on a table value: slots of the given type lose their buffer. */
  function Cleared(t: seq<HidBuffer>, reportType: byte): (r: seq<HidBuffer>)
    ensures |r| == |t|
    ensures forall i :: 0 <= i < |t| && !Serves(t[i].mode, reportType) ==> r[i] == t[i]
    ensures forall i :: 0 <= i < |t| && Serves(t[i].mode, reportType) ==> r[i] == t[i].(buffer := None)
  {
    seq(|t|, i requires 0 <= i < |t| =>
      if Serves(t[i].mode, reportType) then t[i].(buffer := None) else t[i])
  }

  /** After clearing a type no report ID of that type is found any more. */
  lemma ClearedFindsNothing(t: seq<HidBuffer>, reportType: byte, reportID: byte)
    ensures Find(Cleared(t, reportType), reportType, reportID) == None
  {
    var c := Cleared(t, reportType);
    assert forall j :: 0 <= j < |c| ==> !Matches(c[j], reportType, reportID);
  }

  /** Clearing the other type leaves every lookup of this type as it was. */
  lemma ClearOtherTypeKeepsLookups(t: seq<HidBuffer>, reportType: byte, other: byte, reportID: byte)
    requires (other == REPORT_TYPE_OUTPUT) != (reportType == REPORT_TYPE_OUTPUT)
    ensures Find(Cleared(t, other), reportType, reportID) == Find(t, reportType, reportID)
  {
    var c := Cleared(t, other);
    assert forall j :: 0 <= j < |t| ==> (Matches(c[j], reportType, reportID) <==> Matches(t[j], reportType, reportID));
    var r := Find(t, reportType, reportID);
    if r.Some? {
      FindFirst(c, reportType, reportID, r.value);
    } else {
      assert forall j :: 0 <= j < |c| ==> !Matches(c[j], reportType, reportID);
    }
  }

  /** The mode adjustment `usb_hid_set_buffers` applies before adding a buffer. */
  function Retyped(reportType: byte, b: HidBuffer): HidBuffer
  {
    b.(mode := WithOutputBit(b.mode, reportType == REPORT_TYPE_OUTPUT))
  }

  predicate Addable(bufs: seq<HidBuffer>)
  {
    forall i :: 0 <= i < |bufs| ==> bufs[i].buffer.Some? && bufs[i].bufferSize >= 1
  }

  /** The table after adding `bufs[..n]` one by one to `t`. */
  function AddedAll(t: seq<HidBuffer>, reportType: byte, bufs: seq<HidBuffer>, n: nat): (r: seq<HidBuffer>)
    requires Addable(bufs) && n <= |bufs|
    ensures |r| == |t|
    decreases n
  {
    if n == 0 then t
    else Added(AddedAll(t, reportType, bufs, n - 1), reportType, Retyped(reportType, bufs[n - 1])).0
  }

  /** A present buffer serving the other type. */
  predicate OtherKind(b: HidBuffer, reportType: byte)
  {
    b.buffer.Some? && !Serves(b.mode, reportType)
  }

  /** Adding buffers of one type never displaces a buffer of the other type. */
  lemma {:induction false} AddedAllKeepsOtherKind(t: seq<HidBuffer>, reportType: byte, bufs: seq<HidBuffer>, n: nat, i: nat)
    requires Addable(bufs) && n <= |bufs| && i < |t| && OtherKind(t[i], reportType)
    ensures AddedAll(t, reportType, bufs, n)[i] == t[i]
    decreases n
  {
    if n > 0 {
      AddedAllKeepsOtherKind(t, reportType, bufs, n - 1, i);
      var prev := AddedAll(t, reportType, bufs, n - 1);
      var b := Retyped(reportType, bufs[n - 1]);
      assert !Matches(prev[i], reportType, b.reportID);
      assert prev[i].buffer.Some?;
    }
  }

  /** `usb_hid_set_buffers` on a table value: clear the type, then add each buffer. */
  function Installed(t: seq<HidBuffer>, reportType: byte, bufs: seq<HidBuffer>): (r: seq<HidBuffer>)
    requires Addable(bufs)
    ensures |r| == |t|
  {
    AddedAll(Cleared(t, reportType), reportType, bufs, |bufs|)
  }

  /** Installing the buffers of one type leaves every buffer of the other type in its slot. */
  lemma InstalledKeepsOtherKind(t: seq<HidBuffer>, reportType: byte, bufs: seq<HidBuffer>, i: nat)
    requires Addable(bufs) && i < |t| && OtherKind(t[i], reportType)
    ensures Installed(t, reportType, bufs)[i] == t[i]
  {
    AddedAllKeepsOtherKind(Cleared(t, reportType), reportType, bufs, |bufs|, i);
  }

  /** `usb_hid_setTXEPSize`: 0 and sizes above 64 mean 64. */
  function TxEpSize(size: uint32): (r: nat)
    ensures 1 <= r <= 64
    ensures 1 <= size <= 64 ==> r == size
  {
    if size == 0 || size > 64 then 64 else size
  }

  /** Whether the report ID takes byte 0 of the buffer, `reportID != 0`. */
  function Delta(reportID: byte): (d: nat)
  {
    if reportID != 0 then 1 else 0
  }

  /** What `usb_hid_get_data` hands out and how the table changes. */
  datatype GetDataResult = GetDataResult(count: nat, data: seq<byte>, table: seq<HidBuffer>)

  /**
   * `usb_hid_get_data` on a table value: nothing when no buffer serves the
   * ID, when it is EMPTY, or when polling finds it already READ; otherwise
   * the report after the optional ID byte, and a poll marks it READ.
   */
  function GetData(t: seq<HidBuffer>, reportType: byte, reportID: byte, poll: bool): (r: GetDataResult)
    requires WellSizedTable(t)
    ensures |r.table| == |t| && r.count == |r.data|
  {
    match Find(t, reportType, reportID)
    case None => GetDataResult(0, [], t)
    case Some(i) =>
      var b := t[i];
      if b.state != BUFFER_EMPTY && !(poll && b.state == BUFFER_READ) then
        var d := Delta(reportID);
        GetDataResult(b.bufferSize - d, b.buffer.value[d..], if poll then t[i := b.(state := BUFFER_READ)] else t)
      else GetDataResult(0, [], t)
  }

  /** A report is delivered only once to a polling reader until SET_REPORT marks it UNREAD again. */
  lemma PollDeliversOnce(t: seq<HidBuffer>, reportType: byte, reportID: byte)
    requires WellSizedTable(t)
    ensures var first := GetData(t, reportType, reportID, true);
      WellSizedTable(first.table) && GetData(first.table, reportType, reportID, true).count == 0
  {
    var first := GetData(t, reportType, reportID, true);
    match Find(t, reportType, reportID)
    case None =>
    case Some(i) =>
      if first.table != t {
        FindFirst(first.table, reportType, reportID, i);
      }
  }

  /**
   * `usb_hid_set_feature` on a table value: the matching feature buffer
   * receives `data` after its ID byte, keeps a non-zero report ID in byte 0
   * and becomes READ.
   */
  function SetFeature(t: seq<HidBuffer>, reportID: byte, data: seq<byte>): (r: seq<HidBuffer>)
    requires WellSizedTable(t)
    requires Find(t, REPORT_TYPE_FEATURE, reportID).Some? ==>
      t[Find(t, REPORT_TYPE_FEATURE, reportID).value].bufferSize - Delta(reportID) <= |data|
    ensures |r| == |t| && WellSizedTable(r)
    ensures Find(t, REPORT_TYPE_FEATURE, reportID).None? ==> r == t
    ensures Find(t, REPORT_TYPE_FEATURE, reportID).Some? ==>
      var i := Find(t, REPORT_TYPE_FEATURE, reportID).value;
      r == t[i := r[i]] && r[i].state == BUFFER_READ && r[i].buffer.Some? &&
      r[i].buffer.value[Delta(reportID)..] == data[..t[i].bufferSize - Delta(reportID)] &&
      (reportID != 0 ==> r[i].buffer.value[0] == reportID)
  {
    match Find(t, REPORT_TYPE_FEATURE, reportID)
    case None => t
    case Some(i) =>
      var b := t[i];
      var d := Delta(reportID);
      var bytes := b.buffer.value[..d] + data[..b.bufferSize - d];
      var bytes' := if reportID != 0 then bytes[0 := reportID] else bytes;
      t[i := b.(buffer := Some(bytes'), state := BUFFER_READ)]
  }

  /** What the sketch reads back after set_feature is the data it stored. */
  lemma SetFeatureThenGet(t: seq<HidBuffer>, reportID: byte, data: seq<byte>)
    requires WellSizedTable(t)
    requires Find(t, REPORT_TYPE_FEATURE, reportID).Some?
    requires t[Find(t, REPORT_TYPE_FEATURE, reportID).value].bufferSize - Delta(reportID) <= |data|
    ensures var i := Find(t, REPORT_TYPE_FEATURE, reportID).value;
      GetData(SetFeature(t, reportID, data), REPORT_TYPE_FEATURE, reportID, false).data == data[..t[i].bufferSize - Delta(reportID)]
  {
    var i := Find(t, REPORT_TYPE_FEATURE, reportID).value;
    var t' := SetFeature(t, reportID, data);
    assert forall j :: 0 <= j < |t| && j != i ==> t'[j] == t[j];
    assert Matches(t'[i], REPORT_TYPE_FEATURE, reportID);
    FindFirst(t', REPORT_TYPE_FEATURE, reportID, i);
  }

  /**
   * What the data stage of a setup request sends to the host: nothing, the
   * bytes of a buffer or of the protocol value, or one of the two HID
   * descriptors (`HID_Report_Descriptor`, `HID_Hid_Descriptor`).
   */
  datatype Reply = NoReply | Bytes(data: seq<byte>) | ReportDescriptor | HidDescriptor

  /**
   * `hidUSBDataSetup` on a table value and the protocol value: SET_REPORT
   * for a feature or output buffer, GET_REPORT for a feature buffer, and
   * the standard GET_DESCRIPTOR / GET_PROTOCOL requests. The result, the
   * new table and what is sent back.
   */
  function DataSetup(t: seq<HidBuffer>, protocolValue: uint32, request: byte, requestType: byte, wValue0: byte, wValue1: byte): (r: (UsbResult, seq<HidBuffer>, Reply))
    ensures |r.1| == |t|
    ensures r.0 != Success ==> r.1 == t && r.2 == NoReply
    ensures r.2 == ReportDescriptor <==> requestType == STANDARD_INTERFACE && request == GET_DESCRIPTOR && wValue1 == REPORT_DESCRIPTOR
    ensures r.2 == HidDescriptor <==> requestType == STANDARD_INTERFACE && request == GET_DESCRIPTOR && wValue1 == HID_DESCRIPTOR_TYPE
    ensures requestType == STANDARD_INTERFACE && request == GET_PROTOCOL ==> r == (Success, t, Bytes(ProtocolData(protocolValue)))
  {
    if requestType == CLASS_INTERFACE && request == SET_REPORT
       && (wValue1 == REPORT_TYPE_FEATURE || wValue1 == REPORT_TYPE_OUTPUT) then
      match Find(t, wValue1, wValue0)
      case None => (Unsupport, t, NoReply)
      case Some(i) =>
        if WaitsForRead(t[i].mode) && t[i].state == BUFFER_UNREAD then (NotReady, t, NoReply)
        else (Success, t[i := t[i].(state := BUFFER_UNREAD)], NoReply)
    else if requestType == CLASS_INTERFACE && request == GET_REPORT && wValue1 == REPORT_TYPE_FEATURE then
      match Find(t, REPORT_TYPE_FEATURE, wValue0)
      case None => (Unsupport, t, NoReply)
      case Some(i) => if t[i].state == BUFFER_EMPTY then (Unsupport, t, NoReply) else (Success, t, Bytes(t[i].buffer.value))
    else if requestType == STANDARD_INTERFACE && request == GET_DESCRIPTOR && wValue1 == REPORT_DESCRIPTOR then
      (Success, t, ReportDescriptor)
    else if requestType == STANDARD_INTERFACE && request == GET_DESCRIPTOR && wValue1 == HID_DESCRIPTOR_TYPE then
      (Success, t, HidDescriptor)
    else if requestType == STANDARD_INTERFACE && request == GET_PROTOCOL then
      (Success, t, Bytes(ProtocolData(protocolValue)))
    else (Unsupport, t, NoReply)
  }

  /**
   * A SET_REPORT for a buffer still UNREAD is refused unless the buffer is
   * in no-wait mode; an accepted one leaves the buffer UNREAD.
   */
  lemma SetReportStates(t: seq<HidBuffer>, protocolValue: uint32, reportType: byte, reportID: byte)
    requires reportType == REPORT_TYPE_FEATURE || reportType == REPORT_TYPE_OUTPUT
    ensures var r := DataSetup(t, protocolValue, SET_REPORT, CLASS_INTERFACE, reportID, reportType);
      match Find(t, reportType, reportID)
      case None => r.0 == Unsupport
      case Some(i) =>
        (r.0 == NotReady <==> WaitsForRead(t[i].mode) && t[i].state == BUFFER_UNREAD)
        && (r.0 == Success ==> r.1[i].state == BUFFER_UNREAD && r.1[i].buffer == t[i].buffer)
  {
  }

  /**
   * A GET_REPORT for a feature buffer is refused exactly when no buffer
   * serves the report or its buffer is still EMPTY; otherwise the table is
   * left as it is and the host is sent the buffer's `bufferSize` bytes.
   */
  lemma GetReportStates(t: seq<HidBuffer>, protocolValue: uint32, reportID: byte)
    requires WellSizedTable(t)
    ensures var r := DataSetup(t, protocolValue, GET_REPORT, CLASS_INTERFACE, reportID, REPORT_TYPE_FEATURE);
      r.1 == t && (r.0 == Success || r.0 == Unsupport)
      && match Find(t, REPORT_TYPE_FEATURE, reportID)
         case None => r.0 == Unsupport
         case Some(i) =>
           (r.0 == Unsupport <==> t[i].state == BUFFER_EMPTY)
           && (r.0 == Success ==> r.2.Bytes? && r.2.data == t[i].buffer.value && |r.2.data| == t[i].bufferSize)
  {
  }

  class HidPart {
    /** `hidBuffers[MAX_HID_BUFFERS]`. */
    const buffers: array<HidBuffer>
    /** `ProtocolValue`. */
    var protocolValue: uint32
    /** `txEPSize` and the transmit endpoint's `bufferSize`. */
    var txEPSize: nat
    var epBufferSize: nat
    /** `hidBufferTx` with its indices. */
    const txq: Ring

    ghost predicate Valid()
      reads this, buffers, txq
    {
      buffers.Length == MAX_HID_BUFFERS && WellSizedTable(buffers[..]) && txq.Valid()
    }

    /** The static initialisers: an empty table, TX endpoint size 64 and an empty queue. */
    constructor()
      ensures Valid() && fresh(buffers) && fresh(txq) && fresh(txq.buf)
      ensures forall i :: 0 <= i < MAX_HID_BUFFERS ==> buffers[i].buffer.None?
      ensures protocolValue == 0 && txEPSize == 64 && epBufferSize == 64 && txq.Contents() == []
    {
      buffers := new HidBuffer[MAX_HID_BUFFERS](_ => HidBuffer(None, 0, 0, 0, BUFFER_EMPTY));
      protocolValue := 0;
      txEPSize := 64;
      epBufferSize := 64;
      txq := new Ring();
    }

    /** `usb_hid_setTXEPSize`. */
    method SetTxEpSize(size: uint32)
      modifies this
      ensures txEPSize == TxEpSize(size) && epBufferSize == TxEpSize(size)
      ensures protocolValue == old(protocolValue)
    {
      var s: nat := size;
      if size == 0 || size > 64 {
        s := 64;
      }
      epBufferSize := s;
      txEPSize := s;
    }

    /** `usb_hid_find_buffer`: the first slot serving `reportType` and `reportID`. */
    method FindBuffer(reportType: byte, reportID: byte) returns (r: Option<nat>)
      requires Valid()
      ensures r == Find(buffers[..], reportType, reportID)
    {
      var output := reportType == REPORT_TYPE_OUTPUT;
      var i := 0;
      while i < MAX_HID_BUFFERS
        invariant 0 <= i <= MAX_HID_BUFFERS
        invariant FindFrom(buffers[..], reportType, reportID, i) == Find(buffers[..], reportType, reportID)
      {
        var b := buffers[i];
        if b.buffer.Some? && IsOutput(b.mode) == output && b.reportID == reportID {
          return Some(i);
        }
        i := i + 1;
      }
      return None;
    }

    /** `usb_hid_set_feature`. */
    method SetFeatureReport(reportID: byte, data: seq<byte>)
      requires Valid()
      requires Find(buffers[..], REPORT_TYPE_FEATURE, reportID).Some? ==>
        buffers[Find(buffers[..], REPORT_TYPE_FEATURE, reportID).value].bufferSize - Delta(reportID) <= |data|
      modifies buffers
      ensures Valid() && buffers[..] == SetFeature(old(buffers[..]), reportID, data)
    {
      var found := FindBuffer(REPORT_TYPE_FEATURE, reportID);
      if found.Some? {
        var i := found.value;
        var b := buffers[i];
        var d := if reportID != 0 then 1 else 0;
        var bytes := b.buffer.value[..d] + data[..b.bufferSize - d];
        if reportID != 0 {
          bytes := bytes[0 := reportID];
        }
        buffers[i] := b.(buffer := Some(bytes), state := BUFFER_READ);
      }
    }

    /** `usb_hid_get_data`. */
    method GetDataReport(reportType: byte, reportID: byte, poll: bool) returns (n: nat, out: seq<byte>)
      requires Valid()
      modifies buffers
      ensures Valid()
      ensures var r := GetData(old(buffers[..]), reportType, reportID, poll);
        n == r.count && out == r.data && buffers[..] == r.table
    {
      n, out := 0, [];
      var found := FindBuffer(reportType, reportID);
      if found.Some? {
        var i := found.value;
        var b := buffers[i];
        if b.state != BUFFER_EMPTY && !(poll && b.state == BUFFER_READ) {
          var d := if reportID != 0 then 1 else 0;
          out := b.buffer.value[d..];
          if poll {
            buffers[i] := b.(state := BUFFER_READ);
          }
          n := b.bufferSize - d;
        }
      }
    }

    /** `usb_hid_clear_buffers`. */
    method ClearBuffers(reportType: byte)
      requires Valid()
      modifies buffers
      ensures Valid() && buffers[..] == Cleared(old(buffers[..]), reportType)
    {
      var output := reportType == REPORT_TYPE_OUTPUT;
      ghost var t := Cleared(buffers[..], reportType);
      var i := 0;
      while i < MAX_HID_BUFFERS
        invariant 0 <= i <= MAX_HID_BUFFERS
        invariant forall j :: 0 <= j < i ==> buffers[j] == t[j]
        invariant forall j :: i <= j < MAX_HID_BUFFERS ==> buffers[j] == old(buffers[j])
      {
        var b := buffers[i];
        if IsOutput(b.mode) == output {
          buffers[i] := b.(buffer := None);
        }
        i := i + 1;
      }
      assert buffers[..] == t;
    }

    /** `usb_hid_clear`: protocol 0 and every buffer dropped. */
    method Clear()
      requires Valid()
      modifies this, buffers
      ensures Valid() && protocolValue == 0
      ensures forall i :: 0 <= i < MAX_HID_BUFFERS ==> buffers[i].buffer.None?
      ensures txEPSize == old(txEPSize) && epBufferSize == old(epBufferSize)
    {
      protocolValue := 0;
      ClearBuffers(REPORT_TYPE_OUTPUT);
      ClearBuffers(REPORT_TYPE_FEATURE);
    }

    /**
     * `usb_hid_add_buffer`: returns the flag and the caller's buffer as the
     * call leaves it (mode bit adjusted, memory zeroed, ID in byte 0).
     */
    method AddBuffer(reportType: byte, buf: HidBuffer) returns (ok: byte, prepared: HidBuffer)
      requires Valid() && buf.buffer.Some? && buf.bufferSize >= 1
      modifies buffers
      ensures Valid() && prepared == Prepared(reportType, buf)
      ensures (buffers[..], ok) == Added(old(buffers[..]), reportType, buf)
    {
      prepared := Prepared(reportType, buf);
      var found := FindBuffer(reportType, buf.reportID);
      if found.Some? {
        buffers[found.value] := prepared;
        return 1, prepared;
      }
      var i := 0;
      while i < MAX_HID_BUFFERS
        invariant 0 <= i <= MAX_HID_BUFFERS && buffers[..] == old(buffers[..])
        invariant FreeFrom(buffers[..], i) == FreeFrom(buffers[..], 0)
      {
        if buffers[i].buffer.None? {
          buffers[i] := prepared;
          return 1, prepared;
        }
        i := i + 1;
      }
      return 0, prepared;
    }

    /** `usb_hid_set_buffers`: clear the type, then add each of `bufs` in turn. */
    method SetBuffers(reportType: byte, bufs: seq<HidBuffer>) returns (updated: seq<HidBuffer>)
      requires Valid() && Addable(bufs)
      modifies buffers
      ensures Valid() && buffers[..] == Installed(old(buffers[..]), reportType, bufs)
      ensures |updated| == |bufs|
      ensures forall i :: 0 <= i < |bufs| ==> updated[i] == Prepared(reportType, Retyped(reportType, bufs[i]))
    {
      ClearBuffers(reportType);
      ghost var start := buffers[..];
      updated := [];
      var i := 0;
      while i < |bufs|
        invariant 0 <= i <= |bufs| && Valid() && |updated| == i
        invariant buffers[..] == AddedAll(start, reportType, bufs, i)
        invariant forall j :: 0 <= j < i ==> updated[j] == Prepared(reportType, Retyped(reportType, bufs[j]))
      {
        updated := InstallOne(reportType, bufs, i, start, updated);
        i := i + 1;
      }
    }

    /** One round of `usb_hid_set_buffers`: retype `bufs[i]` and add it. */
    method InstallOne(reportType: byte, bufs: seq<HidBuffer>, i: nat, ghost start: seq<HidBuffer>, updated: seq<HidBuffer>)
      returns (updated': seq<HidBuffer>)
      requires Valid() && Addable(bufs) && i < |bufs| && |updated| == i
      requires buffers[..] == AddedAll(start, reportType, bufs, i)
      requires forall j :: 0 <= j < i ==> updated[j] == Prepared(reportType, Retyped(reportType, bufs[j]))
      modifies buffers
      ensures Valid() && buffers[..] == AddedAll(start, reportType, bufs, i + 1)
      ensures |updated'| == i + 1
      ensures forall j :: 0 <= j < i + 1 ==> updated'[j] == Prepared(reportType, Retyped(reportType, bufs[j]))
    {
      var _, p := AddBuffer(reportType, Retyped(reportType, bufs[i]));
      updated' := updated + [p];
    }

    /** `hidUSBDataSetup`. */
    method DataSetupRequest(request: byte, requestType: byte, wValue0: byte, wValue1: byte) returns (r: UsbResult, reply: Reply)
      requires Valid()
      modifies buffers
      ensures Valid() && (r, buffers[..], reply) == DataSetup(old(buffers[..]), protocolValue, request, requestType, wValue0, wValue1)
    {
      if requestType == CLASS_INTERFACE && request == SET_REPORT
         && (wValue1 == REPORT_TYPE_FEATURE || wValue1 == REPORT_TYPE_OUTPUT) {
        var found := FindBuffer(wValue1, wValue0);
        if found.None? {
          return Unsupport, NoReply;
        }
        var i := found.value;
        if WaitsForRead(buffers[i].mode) && buffers[i].state == BUFFER_UNREAD {
          return NotReady, NoReply;
        }
        buffers[i] := buffers[i].(state := BUFFER_UNREAD);
        return Success, NoReply;
      }
      if requestType == CLASS_INTERFACE && request == GET_REPORT && wValue1 == REPORT_TYPE_FEATURE {
        var found := FindBuffer(REPORT_TYPE_FEATURE, wValue0);
        if found.None? || buffers[found.value].state == BUFFER_EMPTY {
          return Unsupport, NoReply;
        }
        return Success, Bytes(buffers[found.value].buffer.value);
      }
      if requestType == STANDARD_INTERFACE && request == GET_DESCRIPTOR {
        if wValue1 == REPORT_DESCRIPTOR {
          return Success, ReportDescriptor;
        } else if wValue1 == HID_DESCRIPTOR_TYPE {
          return Success, HidDescriptor;
        }
      }
      if requestType == STANDARD_INTERFACE && request == GET_PROTOCOL {
        return Success, Bytes(ProtocolData(protocolValue));
      }
      return Unsupport, NoReply;
    }

    /** `hidUSBNoDataSetup`: only the class request SET_PROTOCOL, which records wValue0. */
    method NoDataSetup(request: byte, requestType: byte, wValue0: byte) returns (r: UsbResult)
      modifies this
      ensures r == Success <==> requestType == CLASS_INTERFACE && request == SET_PROTOCOL
      ensures r == Success || r == Unsupport
      ensures protocolValue == if r == Success then wValue0 else old(protocolValue)
      ensures r == Success ==> DataSetup(buffers[..], protocolValue, GET_PROTOCOL, STANDARD_INTERFACE, 0, 0).2 == Bytes([wValue0])
      ensures txEPSize == old(txEPSize) && epBufferSize == old(epBufferSize)
    {
      if requestType == CLASS_INTERFACE && request == SET_PROTOCOL {
        protocolValue := wValue0;
        return Success;
      }
      return Unsupport;
    }

    /** `hidUSBReset`: the transmit queue is emptied. */
    method Reset()
      requires Valid()
      modifies txq
      ensures Valid() && txq.Contents() == []
    {
      txq.Reset();
    }
  }
}
