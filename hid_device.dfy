// The Arduino-side HID layer (usb_hid_device.cpp and the reporter classes
// of usb_hid_device.h): the string descriptors `begin` writes, the hex
// serial-number writer, the `HIDReporter` view of a device's report
// memory, `sendReport` over the HID transmit queue, and `HIDRaw::send`.
module HidDevice {
  import opened Prelude
  import opened UsbCore
  import opened UsbStrings
  import opened ByteRing
  import opened UsbHid

  const USB_HID_MAX_PRODUCT_LENGTH: nat := 32
  const USB_HID_MAX_MANUFACTURER_LENGTH: nat := 32
  const USB_HID_MAX_SERIAL_NUMBER_LENGTH: nat := 20

  /**
   * `generateUSBDescriptor`: at most `maxLength` characters of `s`, after a
   * length byte of `USB_DESCRIPTOR_STRING_LEN(length)` (kept in a byte) and
   * the STRING type byte.  Nothing past the descriptor is touched.
   */
  method GenerateDescriptor(out: array<byte>, maxLength: nat, s: seq<byte>)
    requires StringLen(maxLength) <= out.Length
    modifies out
    ensures var n := if |s| > maxLength then maxLength else |s|;
      out[..StringLen(n)] == StringBytes(U8(StringLen(n)), s[..n])
      && out[StringLen(n)..] == old(out[StringLen(n)..])
    ensures maxLength <= 126 ==> var n := if |s| > maxLength then maxLength else |s|;
      WellFormed(out[..StringLen(n)]) && Text(out[..StringLen(n)]) == s[..n]
  {
    var length := |s|;
    if length > maxLength {
      length := maxLength;
    }
    out[0] := U8(StringLen(length));
    out[1] := STRING_DESCRIPTOR;
    ghost var header := out[..2];
    WriteChars(out, s, length);
    assert out[..StringLen(length)] == header + out[2..StringLen(length)];
    StringLenHeader(s[..length]);
    TextOfStringBytes(U8(StringLen(length)), s[..length]);
  }

  /** The character `putSerialNumber` writes for a nibble: '0'-'9', then 'a'-'f'. */
  function HexDigit(nibble: nat): (c: byte)
    requires nibble < 16
  {
    if nibble <= 9 then nibble + 0x30 else nibble - 10 + 0x61
  }

  /** The value of a lowercase hex digit. */
  function DigitValue(c: byte): nat
  {
    if 0x30 <= c <= 0x39 then c - 0x30 else if 0x61 <= c <= 0x66 then c - 0x61 + 10 else 0
  }

  predicate IsLowerHex(c: byte)
  {
    0x30 <= c <= 0x39 || 0x61 <= c <= 0x66
  }

  /** The `nibbles` characters of `id`, least-significant nibble first. */
  function HexSerial(id: nat, nibbles: nat): (r: seq<byte>)
    ensures |r| == nibbles
    ensures forall k :: 0 <= k < |r| ==> IsLowerHex(r[k])
  {
    if nibbles == 0 then [] else [HexDigit(id % 16)] + HexSerial(id / 16, nibbles - 1)
  }

  /** The number a string of hex digits denotes when read least-significant first. */
  function HexValue(s: seq<byte>): nat
  {
    if s == [] then 0 else DigitValue(s[0]) + 16 * HexValue(s[1..])
  }

  function Pow16(n: nat): (p: nat)
    ensures p >= 1
  {
    if n == 0 then 1 else 16 * Pow16(n - 1)
  }

  /** Reading the serial number back gives the low `nibbles` nibbles of `id`: nothing else is lost. */
  lemma {:induction false} HexSerialValue(id: nat, nibbles: nat)
    ensures HexValue(HexSerial(id, nibbles)) == id % Pow16(nibbles)
    decreases nibbles
  {
    if nibbles > 0 {
      var s := HexSerial(id, nibbles);
      assert s[1..] == HexSerial(id / 16, nibbles - 1);
      HexSerialValue(id / 16, nibbles - 1);
      assert DigitValue(HexDigit(id % 16)) == id % 16;
      NibbleSplit(id, Pow16(nibbles - 1));
    }
  }

  /** The low digit and the rest of `id`, in base 16, modulo `16 * p`. */
  lemma NibbleSplit(id: nat, p: nat)
    requires p >= 1
    ensures id % 16 + 16 * ((id / 16) % p) == id % (16 * p)
  {
    var q, r := (id / 16) / p, (id / 16) % p;
    assert id / 16 == p * q + r;
    assert id == 16 * (id / 16) + id % 16;
    assert id == (16 * p) * q + (16 * r + id % 16) by {
      assert 16 * (p * q + r) == (16 * p) * q + 16 * r;
    }
    DivModUnique(id, 16 * p, q, 16 * r + id % 16);
  }

  /** Writing the next digit moves it from the pending serial to the written part. */
  lemma HexStep(done: seq<byte>, v: nat, m: nat, whole: seq<byte>)
    requires m > 0 && done + HexSerial(v, m) == whole
    ensures (done + [HexDigit(v % 16)]) + HexSerial(v / 16, m - 1) == whole
  {
    assert HexSerial(v, m) == [HexDigit(v % 16)] + HexSerial(v / 16, m - 1);
  }

  /** One character of `putSerialNumber`, stored just past the ones before it. */
  method PutDigit(out: array<byte>, at: nat, next: nat, d: byte)
    requires at <= next < out.Length
    modifies out
    ensures out[at..next + 1] == old(out[at..next]) + [d]
    ensures forall k | 0 <= k < out.Length && k != next :: out[k] == old(out[k])
  {
    out[next] := d;
  }

  /**
   * `putSerialNumber(out, nibbles, id)`: exactly `nibbles` characters at
   * `out[at..]`, and the position just past them.
   */
  method PutSerialNumber(out: array<byte>, at: nat, nibbles: nat, id: uint32) returns (next: nat)
    requires at + nibbles <= out.Length
    modifies out
    ensures next == at + nibbles
    ensures out[at..next] == HexSerial(id, nibbles)
    ensures out[..at] == old(out[..at]) && out[next..] == old(out[next..])
  {
    var v: nat := id;
    var i := 0;
    next := at;
    while i < nibbles
      invariant 0 <= i <= nibbles && next == at + i
      invariant out[at..next] + HexSerial(v, nibbles - i) == HexSerial(id, nibbles)
      invariant forall k | 0 <= k < out.Length && !(at <= k < next) :: out[k] == old(out[k])
    {
      var nibble := v % 16;
      ghost var done := out[at..next];
      HexStep(done, v, nibbles - i, HexSerial(id, nibbles));
      PutDigit(out, at, next, HexDigit(nibble));
      next := next + 1;
      v := v / 16;
      i := i + 1;
    }
  }

  /**
   * The bytes of a device's report memory that `HIDReporter` sends: all of
   * them when the report has an ID, which then sits in byte 0; without an
   * ID the reporter starts one byte in (`buffer = _buffer + 1`).
   */
  function ReportView(r: seq<byte>, reportID: byte): (v: seq<byte>)
    requires reportID == 0 ==> |r| >= 1
    ensures reportID != 0 ==> v == r
    ensures reportID == 0 ==> v == r[1..]
  {
    if reportID == 0 then r[1..] else r
  }

  /** The report memory as the three-argument `HIDReporter` constructor leaves it. */
  predicate Initialised(r: seq<byte>, before: seq<byte>, reportID: byte)
  {
    |r| == |before|
    && (reportID == 0 ==> |r| >= 1 && r[0] == before[0] && forall k :: 1 <= k < |r| ==> r[k] == 0)
    && (reportID != 0 ==> (|r| > 0 ==> r[0] == reportID) && forall k :: 1 <= k < |r| ==> r[k] == 0)
  }

  class Reporter {
    /** The device object's report memory, `_buffer`. */
    const storage: array<byte>
    /** `buffer - _buffer`. */
    const start: nat
    const bufferSize: nat
    const reportID: byte

    ghost predicate Valid()
      reads this
    {
      start <= 1 && start + bufferSize == storage.Length
    }

    /** The bytes `sendReport` transmits. */
    function Report(): (r: seq<byte>)
      requires Valid()
      reads this, storage
      ensures |r| == bufferSize
    {
      storage[start..]
    }

    /**
     * `HIDReporter(_buffer, _size, _reportID)` with `_size` the memory's
     * size: the reported part is zeroed and byte 0 carries a non-zero ID.
     */
    constructor (buf: array<byte>, id: byte)
      requires id == 0 ==> buf.Length >= 1
      modifies buf
      ensures Valid() && storage == buf && reportID == id
      ensures start == (if id == 0 then 1 else 0)
      ensures Initialised(buf[..], old(buf[..]), id)
      ensures Report() == ReportView(buf[..], id)
    {
      storage := buf;
      start := if id == 0 then 1 else 0;
      bufferSize := if id == 0 then buf.Length - 1 else buf.Length;
      reportID := id;
      new;
      var k := start;
      while k < buf.Length
        invariant start <= k <= buf.Length
        invariant forall j :: start <= j < k ==> buf[j] == 0
        invariant forall j :: 0 <= j < start ==> buf[j] == old(buf[j])
      {
        buf[k] := 0;
        k := k + 1;
      }
      if buf.Length > 0 && id != 0 {
        buf[0] := id;
      }
    }

    /** `HIDReporter(_buffer, _size)`: the whole memory zeroed and sent, with no report ID. */
    constructor Plain(buf: array<byte>)
      modifies buf
      ensures Valid() && storage == buf && reportID == 0 && start == 0
      ensures forall k :: 0 <= k < buf.Length ==> buf[k] == 0
      ensures Report() == buf[..]
    {
      storage := buf;
      start := 0;
      bufferSize := buf.Length;
      reportID := 0;
      new;
      forall k | 0 <= k < buf.Length {
        buf[k] := 0;
      }
    }

    /**
     * `sendReport`: offer the rest of the report to `usb_hid_tx` until all
     * of it has been queued, then the zero-length `usb_hid_tx(NULL, 0)`,
     * which queues nothing.  Each call hands bytes to the endpoint as
     * `Ring.Transmit` says, `busy` telling whether an IN transfer is in
     * flight at the first one; when the queue is full the transmit-complete
     * interrupt sends the next IN packet of at most `epSize` bytes.  `sent`
     * is what left the queue.
     */
    method SendReport(txq: Ring, epSize: nat, busy: bool) returns (sent: seq<byte>)
      requires Valid() && txq.Valid() && txq.buf != storage && epSize >= 1
      modifies txq, txq.buf
      ensures txq.Valid()
      ensures sent + txq.Contents() == old(txq.Contents()) + Report()
    {
      ghost var q0 := txq.Contents();
      var toSend := bufferSize;
      var b := start;
      var inFlight := busy;
      sent := [];
      while toSend > 0
        invariant txq.Valid() && start <= b && b + toSend == storage.Length
        invariant sent + txq.Contents() == q0 + storage[start..b]
        decreases toSend, txq.Count()
      {
        var delta, packet;
        delta, packet, inFlight := SendRound(txq, epSize, b, toSend, inFlight, sent, q0);
        sent := sent + packet;
        toSend := toSend - delta;
        b := b + delta;
      }
      assert storage[start..b] == Report();
      var none, nothing;
      none, nothing, inFlight := txq.Transmit([], epSize, inFlight);
    }

    /** One round of the `sendReport` loop; after an interrupt's packet a transfer is in flight. */
    method SendRound(txq: Ring, epSize: nat, b: nat, toSend: nat, busy: bool, ghost sent: seq<byte>, ghost q0: seq<byte>)
      returns (delta: nat, packet: seq<byte>, busyAfter: bool)
      requires Valid() && txq.Valid() && txq.buf != storage && epSize >= 1
      requires start <= b && b + toSend == storage.Length && toSend > 0
      requires sent + txq.Contents() == q0 + storage[start..b]
      modifies txq, txq.buf
      ensures txq.Valid() && delta <= toSend
      ensures (sent + packet) + txq.Contents() == q0 + storage[start..b + delta]
      ensures delta > 0 || txq.Count() < old(txq.Count())
    {
      ghost var before := txq.Contents();
      delta, packet, busyAfter := txq.Transmit(storage[b..], epSize, busy);
      assert storage[start..b] + storage[b..][..delta] == storage[start..b + delta];
      assert (sent + packet) + txq.Contents() == q0 + storage[start..b + delta] by {
        assert (sent + packet) + txq.Contents() == sent + (packet + txq.Contents());
        assert sent + (before + storage[b..][..delta]) == (sent + before) + storage[b..][..delta];
      }
      if delta == 0 {
        ghost var full := txq.Contents();
        packet := txq.Drain(epSize);
        busyAfter := true;
        assert (sent + packet) + txq.Contents() == sent + full;
      }
    }

    /** `getFeature`: `usb_hid_get_data` for this reporter's ID and the FEATURE type. */
    method GetFeature(hid: HidPart, poll: bool) returns (n: nat, out: seq<byte>)
      requires hid.Valid()
      modifies hid.buffers
      ensures hid.Valid()
      ensures var r := GetData(old(hid.buffers[..]), REPORT_TYPE_FEATURE, reportID, poll);
        n == r.count && out == r.data && hid.buffers[..] == r.table
    {
      n, out := hid.GetDataReport(REPORT_TYPE_FEATURE, reportID, poll);
    }

    /** `getOutput`: `usb_hid_get_data` for this reporter's ID and the OUTPUT type. */
    method GetOutput(hid: HidPart, poll: bool) returns (n: nat, out: seq<byte>)
      requires hid.Valid()
      modifies hid.buffers
      ensures hid.Valid()
      ensures var r := GetData(old(hid.buffers[..]), REPORT_TYPE_OUTPUT, reportID, poll);
        n == r.count && out == r.data && hid.buffers[..] == r.table
    {
      n, out := hid.GetDataReport(REPORT_TYPE_OUTPUT, reportID, poll);
    }

    /** `setFeature`: `usb_hid_set_feature` for this reporter's ID. */
    method SetFeature(hid: HidPart, data: seq<byte>)
      requires hid.Valid()
      requires Find(hid.buffers[..], REPORT_TYPE_FEATURE, reportID).Some? ==>
        hid.buffers[Find(hid.buffers[..], REPORT_TYPE_FEATURE, reportID).value].bufferSize - Delta(reportID) <= |data|
      modifies hid.buffers
      ensures hid.Valid() && hid.buffers[..] == UsbHid.SetFeature(old(hid.buffers[..]), reportID, data)
    {
      hid.SetFeatureReport(reportID, data);
    }
  }

  /**
   * The memory `HIDRaw::send(data, n)` leaves: zeroed, then the first
   * `min(n, size)` bytes of `data`.
   */
  function RawBuffer(data: seq<byte>, size: nat): (r: seq<byte>)
    ensures |r| == size
    ensures forall k :: 0 <= k < size ==> r[k] == if k < |data| then data[k] else 0
  {
    var m := Min(|data|, size);
    data[..m] + Zeros(size - m)
  }

  /**
   * `HIDRaw<size>`: the reporter is built with report ID 0, so it sends
   * bytes 1 to `size - 1` of its memory.
   */
  class HidRaw {
    const outBuffer: array<byte>
    const reporter: Reporter

    ghost predicate Valid()
      reads this, reporter
    {
      reporter.Valid() && reporter.storage == outBuffer && reporter.reportID == 0 && reporter.start == 1
    }

    constructor (size: nat)
      requires size >= 1
      ensures Valid() && fresh(outBuffer) && outBuffer.Length == size
    {
      var buf := new byte[size];
      outBuffer := buf;
      reporter := new Reporter(buf, 0);
    }

    /**
     * `send(data, n)`: the memory is zero-filled, `min(n, size)` bytes of
     * `data` are copied to its start, and the report is sent.  What reaches
     * the queue is that memory from byte 1 on: `data[0]` is not among it.
     */
    method Send(data: seq<byte>, txq: Ring, epSize: nat, busy: bool) returns (sent: seq<byte>)
      requires Valid() && txq.Valid() && txq.buf != outBuffer && epSize >= 1
      modifies outBuffer, txq, txq.buf
      ensures Valid() && txq.Valid()
      ensures outBuffer[..] == RawBuffer(data, outBuffer.Length)
      ensures sent + txq.Contents() == old(txq.Contents()) + RawBuffer(data, outBuffer.Length)[1..]
    {
      var m := Min(|data|, outBuffer.Length);
      forall k | 0 <= k < outBuffer.Length {
        outBuffer[k] := if k < m then data[k] else 0;
      }
      assert outBuffer[..] == RawBuffer(data, outBuffer.Length);
      sent := reporter.SendReport(txq, epSize, busy);
    }
  }

  /** The parts `begin` registers. */
  datatype PartName = HidPartName | SerialPartName

  /** What `usb_generic_set_info` is given: the IDs, and which descriptor pointers are not NULL. */
  datatype Info = Info(idVendor: uint16, idProduct: uint16, manufacturer: bool, product: bool, serialNumber: bool)

  /** The parts of the device: the HID part, and the CDC serial part when serial support was chosen. */
  function PartsFor(serialSupport: bool): (p: seq<PartName>)
    ensures |p| == (if serialSupport then 2 else 1) && p[0] == HidPartName
  {
    if serialSupport then [HidPartName, SerialPartName] else [HidPartName]
  }

  /** `USBHIDDevice`: the sketch-facing device object behind `USBHID`. */
  class HidDriver {
    var enabled: bool
    var serialSupport: bool
    const iManufacturer: array<byte>
    const iProduct: array<byte>
    const iSerialNumber: array<byte>
    /** The last calls into the generic layer and the HID part. */
    var info: Option<Info>
    var reportDescriptor: seq<byte>
    var parts: seq<PartName>
    /** Times `usb_generic_enable` and `usb_generic_disable` were called. */
    var enables: nat
    var disables: nat

    ghost predicate Valid()
      reads this
    {
      iManufacturer.Length == StringLen(USB_HID_MAX_MANUFACTURER_LENGTH)
      && iProduct.Length == StringLen(USB_HID_MAX_PRODUCT_LENGTH)
      && iSerialNumber.Length == StringLen(USB_HID_MAX_SERIAL_NUMBER_LENGTH)
      && iManufacturer != iProduct && iManufacturer != iSerialNumber && iProduct != iSerialNumber
    }

    constructor ()
      ensures Valid() && !enabled && !serialSupport && info.None? && parts == [] && enables == 0 && disables == 0
    {
      enabled := false;
      serialSupport := false;
      iManufacturer := new byte[StringLen(USB_HID_MAX_MANUFACTURER_LENGTH)];
      iProduct := new byte[StringLen(USB_HID_MAX_PRODUCT_LENGTH)];
      iSerialNumber := new byte[StringLen(USB_HID_MAX_SERIAL_NUMBER_LENGTH)];
      info := None;
      reportDescriptor := [];
      parts := [];
      enables := 0;
      disables := 0;
    }

    method SetSerial(support: bool)
      modifies this
      ensures serialSupport == support
      ensures enabled == old(enabled) && info == old(info) && parts == old(parts) && enables == old(enables) && disables == old(disables)
    {
      serialSupport := support;
    }

    /** The descriptor-writing half of `begin`: one `generateUSBDescriptor` per string given. */
    method Describe(manufacturer: Option<seq<byte>>, product: Option<seq<byte>>, serialNumber: Option<seq<byte>>)
      requires Valid()
      modifies iManufacturer, iProduct, iSerialNumber
      ensures manufacturer.Some? ==> var n := Min(|manufacturer.value|, USB_HID_MAX_MANUFACTURER_LENGTH);
        iManufacturer[..StringLen(n)] == StringBytes(U8(StringLen(n)), manufacturer.value[..n])
      ensures product.Some? ==> var n := Min(|product.value|, USB_HID_MAX_PRODUCT_LENGTH);
        iProduct[..StringLen(n)] == StringBytes(U8(StringLen(n)), product.value[..n])
      ensures serialNumber.Some? ==> var n := Min(|serialNumber.value|, USB_HID_MAX_SERIAL_NUMBER_LENGTH);
        iSerialNumber[..StringLen(n)] == StringBytes(U8(StringLen(n)), serialNumber.value[..n])
    {
      if manufacturer.Some? {
        GenerateDescriptor(iManufacturer, USB_HID_MAX_MANUFACTURER_LENGTH, manufacturer.value);
      }
      if product.Some? {
        GenerateDescriptor(iProduct, USB_HID_MAX_PRODUCT_LENGTH, product.value);
      }
      if serialNumber.Some? {
        GenerateDescriptor(iSerialNumber, USB_HID_MAX_SERIAL_NUMBER_LENGTH, serialNumber.value);
      }
    }

    /**
     * `begin`: nothing when already enabled; otherwise the descriptors of
     * the strings given are written, the generic layer gets the IDs and the
     * descriptors that exist, the HID part gets the report descriptor, the
     * parts are set and the device is enabled.
     */
    method Begin(descriptor: seq<byte>, idVendor: uint16, idProduct: uint16,
                 manufacturer: Option<seq<byte>>, product: Option<seq<byte>>, serialNumber: Option<seq<byte>>)
      requires Valid()
      modifies this, iManufacturer, iProduct, iSerialNumber
      ensures Valid() && enabled && serialSupport == old(serialSupport) && disables == old(disables)
      ensures old(enabled) ==> info == old(info) && parts == old(parts) && enables == old(enables)
      ensures old(enabled) ==> reportDescriptor == old(reportDescriptor) && iManufacturer[..] == old(iManufacturer[..])
      ensures old(enabled) ==> iProduct[..] == old(iProduct[..]) && iSerialNumber[..] == old(iSerialNumber[..])
      ensures !old(enabled) ==> info == Some(Info(idVendor, idProduct, manufacturer.Some?, product.Some?, serialNumber.Some?))
      ensures !old(enabled) ==> reportDescriptor == descriptor && parts == PartsFor(serialSupport) && enables == old(enables) + 1
      ensures !old(enabled) && manufacturer.Some? ==> var n := Min(|manufacturer.value|, USB_HID_MAX_MANUFACTURER_LENGTH);
        iManufacturer[..StringLen(n)] == StringBytes(U8(StringLen(n)), manufacturer.value[..n])
      ensures !old(enabled) && product.Some? ==> var n := Min(|product.value|, USB_HID_MAX_PRODUCT_LENGTH);
        iProduct[..StringLen(n)] == StringBytes(U8(StringLen(n)), product.value[..n])
      ensures !old(enabled) && serialNumber.Some? ==> var n := Min(|serialNumber.value|, USB_HID_MAX_SERIAL_NUMBER_LENGTH);
        iSerialNumber[..StringLen(n)] == StringBytes(U8(StringLen(n)), serialNumber.value[..n])
    {
      if enabled {
        return;
      }
      Describe(manufacturer, product, serialNumber);
      info := Some(Info(idVendor, idProduct, manufacturer.Some?, product.Some?, serialNumber.Some?));
      reportDescriptor := descriptor;
      parts := PartsFor(serialSupport);
      enables := enables + 1;
      enabled := true;
    }

    /** `end`: the generic layer is disabled only when the device was enabled. */
    method End()
      modifies this
      ensures !enabled && disables == old(disables) + (if old(enabled) then 1 else 0)
      ensures enables == old(enables) && info == old(info) && parts == old(parts) && serialSupport == old(serialSupport)
    {
      if enabled {
        disables := disables + 1;
        enabled := false;
      }
    }
  }
}
