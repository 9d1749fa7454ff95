// One controller of the wireless X-Box 360 receiver (USBXBox360W.cpp):
// a packed 29-byte report kept as a record, serialised little-endian and
// handed to the controller's endpoint through `x360w_tx`.
module XBox360W {
  import opened Prelude
  import opened Bits
  import X360Controllers

  const REPORT_SIZE: nat := 29

  /** `XBox360WReport_t`, field by field. */
  datatype Report = Report(
    header: seq<byte>, reportID: byte, length: byte, buttons: uint16,
    sliderLeft: byte, sliderRight: byte, x: int16, y: int16, rx: int16, ry: int16,
    unused: seq<byte>)

  predicate Shaped(r: Report)
  {
    |r.header| == 4 && |r.unused| == 11
  }

  /** The report a controller starts with: everything zero but `length`, which is 19. */
  function InitialReport(): (r: Report)
    ensures Shaped(r) && r.length == 19 && r.buttons == 0
  {
    Report(Zeros(4), 0, 19, 0, 0, 0, 0, 0, 0, 0, Zeros(11))
  }

  /** The packed, little-endian memory image of the report. */
  function Encode(r: Report): (b: seq<byte>)
    requires Shaped(r)
    ensures |b| == REPORT_SIZE
  {
    r.header + [r.reportID, r.length] + LE16Bytes(r.buttons) + [r.sliderLeft, r.sliderRight]
    + I16Bytes(r.x) + I16Bytes(r.y) + I16Bytes(r.rx) + I16Bytes(r.ry) + r.unused
  }

  /** The report a 29-byte image holds. */
  function Decode(b: seq<byte>): (r: Report)
    requires |b| == REPORT_SIZE
    ensures Shaped(r)
  {
    Report(b[..4], b[4], b[5], LE16(b, 6), b[8], b[9],
      I16At(b, 10), I16At(b, 12), I16At(b, 14), I16At(b, 16), b[18..])
  }

  /** Every report survives its own image. */
  lemma DecodeEncode(r: Report)
    requires Shaped(r)
    ensures Decode(Encode(r)) == r
  {
    var b := Encode(r);
    assert b[..4] == r.header;
    assert b[6..8] == LE16Bytes(r.buttons);
    assert LE16(b, 6) == LE16(b[6..8], 0);
    I16At16(b, 10, r.x);
    I16At16(b, 12, r.y);
    I16At16(b, 14, r.rx);
    I16At16(b, 16, r.ry);
    assert b[18..] == r.unused;
  }

  lemma I16At16(b: seq<byte>, at: nat, v: int16)
    requires at + 2 <= |b| && b[at..at + 2] == I16Bytes(v)
    ensures I16At(b, at) == v
  {
    assert I16At(b, at) == I16At(b[at..at + 2], 0);
    I16RoundTrip(v);
  }

  /** Every 29-byte image is the image of the report it holds. */
  lemma EncodeDecode(b: seq<byte>)
    requires |b| == REPORT_SIZE
    ensures Encode(Decode(b)) == b
  {
    var r := Decode(b);
    assert LE16Bytes(LE16(b, 6)) == b[6..8] by {
      DigitOf(b[6], b[7]);
    }
    forall at | at in {10, 12, 14, 16}
      ensures I16Bytes(I16At(b, at)) == b[at..at + 2]
    {
      assert I16At(b, at) == I16At(b[at..at + 2], 0);
      I16BytesOf(b[at..at + 2]);
    }
    assert b == b[..4] + [b[4], b[5]] + b[6..8] + [b[8], b[9]] + b[10..12] + b[12..14] + b[14..16] + b[16..18] + b[18..];
  }

  /**
   * `report.buttons` after `button(n, v)`: the 16-bit mask `1 << (n - 1)`
   * set or cleared. For `n` above 16 the truncated mask is zero, so the
   * buttons stay as they were; `n` of 0 or above 32 shifts out of range
   * in C and is taken to change nothing as well.
   */
  function WithButton(buttons: uint16, n: byte, v: bool): (b: uint16)
    ensures !(1 <= n <= 16) ==> b == buttons
    ensures 1 <= n <= 16 ==> (Bit(b, n - 1) <==> v)
  {
    if 1 <= n <= 16 then
      var mask := Pow2(n - 1);
      Pow2Widths();
      Pow2Mono(n - 1, 15);
      OrWidth(buttons, mask, 16);
      AndNotWidth(buttons, mask);
      SetClearBit(buttons, n - 1, n - 1);
      if v then Or(buttons, mask) else AndNot(buttons, mask)
    else buttons
  }

  /** `button(n, v)` sets or clears bit `n - 1` and no other. */
  lemma ButtonOnly(buttons: uint16, n: byte, v: bool, j: nat)
    ensures !(1 <= n <= 16) ==> WithButton(buttons, n, v) == buttons
    ensures 1 <= n <= 16 ==> (Bit(WithButton(buttons, n, v), j) <==> if j == n - 1 then v else Bit(buttons, j))
  {
    if 1 <= n <= 16 {
      SetClearBit(buttons, n - 1, j);
    }
  }

  /** The header `send` puts in front of the report: 00 01 00 F0. */
  const DATA_HEADER: seq<byte> := [0x00, 0x01, 0x00, 0xF0]

  /** The two header bytes of a connection event: 08, then 80 when connected. */
  function ConnectHeader(state: bool): (h: seq<byte>)
    ensures |h| == 2 && h[0] == 0x08 && (h[1] == 0x80 <==> state)
  {
    [0x08, if state then 0x80 else 0x00]
  }

  /**
   * What `sendData` hands to `x360w_tx`. `wait` gives up after 500 ms;
   * `ready1` and `ready2` are whether the endpoint was free at its two
   * calls. The data goes only after a successful first wait, and the
   * zero-length flush only after a second.
   */
  function Transmitted(data: seq<byte>, ready1: bool, ready2: bool): (packets: seq<seq<byte>>)
    ensures packets == [] <==> !ready1
    ensures ready1 ==> packets[0] == data && (|packets| == 2 <==> ready2) && (ready2 ==> packets[1] == [])
  {
    if !ready1 then [] else if ready2 then [data, []] else [data]
  }

  class USBXBox360WController {
    var report: Report
    var controller: uint32
    var manualReport: bool
    /** The packets passed to `x360w_tx` for this controller, oldest first. */
    var sent: seq<seq<byte>>

    ghost predicate Valid()
      reads this
    {
      Shaped(report)
    }

    constructor (c: uint32)
      ensures Valid() && report == InitialReport() && controller == c && !manualReport && sent == []
    {
      report := InitialReport();
      controller := c;
      manualReport := false;
      sent := [];
    }

    method SetController(c: uint32)
      modifies this
      ensures controller == c && report == old(report) && manualReport == old(manualReport) && sent == old(sent)
    {
      controller := c;
    }

    method SendData(data: seq<byte>, ready1: bool, ready2: bool)
      modifies this
      ensures sent == old(sent) + Transmitted(data, ready1, ready2)
      ensures report == old(report) && controller == old(controller) && manualReport == old(manualReport)
    {
      if ready1 {
        sent := sent + [data];
        if ready2 {
          sent := sent + [[]];
        }
      }
    }

    /** `send`: the data header, then the whole report. */
    method Send(ready1: bool, ready2: bool)
      requires Valid()
      modifies this
      ensures Valid() && report == old(report).(header := DATA_HEADER)
      ensures sent == old(sent) + Transmitted(Encode(report), ready1, ready2)
      ensures controller == old(controller) && manualReport == old(manualReport)
    {
      report := report.(header := DATA_HEADER);
      SendData(Encode(report), ready1, ready2);
    }

    /** `connect`: a two-byte connection event from the head of the header. */
    method Connect(state: bool, ready1: bool, ready2: bool)
      requires Valid()
      modifies this
      ensures Valid() && report == old(report).(header := ConnectHeader(state) + old(report).header[2..])
      ensures sent == old(sent) + Transmitted(ConnectHeader(state), ready1, ready2)
      ensures controller == old(controller) && manualReport == old(manualReport)
    {
      report := report.(header := report.header[0 := 0x08][1 := if state then 0x80 else 0x00]);
      assert report.header[..2] == ConnectHeader(state);
      SendData(report.header[..2], ready1, ready2);
    }

    method SetManualReportMode(mode: bool)
      modifies this
      ensures manualReport == mode && report == old(report) && controller == old(controller) && sent == old(sent)
      ensures GetManualReportMode() == mode
    {
      manualReport := mode;
    }

    function GetManualReportMode(): (m: bool)
      reads this
      ensures m == manualReport
    {
      manualReport
    }

    /** `safeSendReport`: a send unless the sketch reports manually. */
    method SafeSendReport(ready1: bool, ready2: bool)
      requires Valid()
      modifies this
      ensures Valid() && report == if manualReport then old(report) else old(report).(header := DATA_HEADER)
      ensures sent == old(sent) + if manualReport then [] else Transmitted(Encode(report), ready1, ready2)
      ensures controller == old(controller) && manualReport == old(manualReport)
    {
      if !manualReport {
        Send(ready1, ready2);
      }
    }

    method Button(n: byte, v: bool, ready1: bool, ready2: bool)
      requires Valid()
      modifies this
      ensures Valid() && report.buttons == WithButton(old(report.buttons), n, v)
      ensures report == old(report).(buttons := report.buttons, header := report.header)
      ensures sent == old(sent) + if manualReport then [] else Transmitted(Encode(report), ready1, ready2)
      ensures controller == old(controller) && manualReport == old(manualReport)
    {
      report := report.(buttons := WithButton(report.buttons, n, v));
      SafeSendReport(ready1, ready2);
    }

    method Buttons(b: uint16, ready1: bool, ready2: bool)
      requires Valid()
      modifies this
      ensures Valid() && report == old(report).(buttons := b, header := report.header)
      ensures sent == old(sent) + if manualReport then [] else Transmitted(Encode(report), ready1, ready2)
      ensures controller == old(controller) && manualReport == old(manualReport)
    {
      report := report.(buttons := b);
      SafeSendReport(ready1, ready2);
    }

    method X(val: int16, ready1: bool, ready2: bool)
      requires Valid()
      modifies this
      ensures Valid() && report == old(report).(x := val, header := report.header)
      ensures sent == old(sent) + if manualReport then [] else Transmitted(Encode(report), ready1, ready2)
      ensures controller == old(controller) && manualReport == old(manualReport)
    {
      report := report.(x := val);
      SafeSendReport(ready1, ready2);
    }

    method Y(val: int16, ready1: bool, ready2: bool)
      requires Valid()
      modifies this
      ensures Valid() && report == old(report).(y := val, header := report.header)
      ensures sent == old(sent) + if manualReport then [] else Transmitted(Encode(report), ready1, ready2)
      ensures controller == old(controller) && manualReport == old(manualReport)
    {
      report := report.(y := val);
      SafeSendReport(ready1, ready2);
    }

    method XRight(val: int16, ready1: bool, ready2: bool)
      requires Valid()
      modifies this
      ensures Valid() && report == old(report).(rx := val, header := report.header)
      ensures sent == old(sent) + if manualReport then [] else Transmitted(Encode(report), ready1, ready2)
      ensures controller == old(controller) && manualReport == old(manualReport)
    {
      report := report.(rx := val);
      SafeSendReport(ready1, ready2);
    }

    method YRight(val: int16, ready1: bool, ready2: bool)
      requires Valid()
      modifies this
      ensures Valid() && report == old(report).(ry := val, header := report.header)
      ensures sent == old(sent) + if manualReport then [] else Transmitted(Encode(report), ready1, ready2)
      ensures controller == old(controller) && manualReport == old(manualReport)
    {
      report := report.(ry := val);
      SafeSendReport(ready1, ready2);
    }

    method Position(x: int16, y: int16, ready1: bool, ready2: bool)
      requires Valid()
      modifies this
      ensures Valid() && report == old(report).(x := x, y := y, header := report.header)
      ensures sent == old(sent) + if manualReport then [] else Transmitted(Encode(report), ready1, ready2)
      ensures controller == old(controller) && manualReport == old(manualReport)
    {
      report := report.(x := x, y := y);
      SafeSendReport(ready1, ready2);
    }

    method PositionRight(x: int16, y: int16, ready1: bool, ready2: bool)
      requires Valid()
      modifies this
      ensures Valid() && report == old(report).(rx := x, ry := y, header := report.header)
      ensures sent == old(sent) + if manualReport then [] else Transmitted(Encode(report), ready1, ready2)
      ensures controller == old(controller) && manualReport == old(manualReport)
    {
      report := report.(rx := x, ry := y);
      SafeSendReport(ready1, ready2);
    }

    method SliderLeft(val: byte, ready1: bool, ready2: bool)
      requires Valid()
      modifies this
      ensures Valid() && report == old(report).(sliderLeft := val, header := report.header)
      ensures sent == old(sent) + if manualReport then [] else Transmitted(Encode(report), ready1, ready2)
      ensures controller == old(controller) && manualReport == old(manualReport)
    {
      report := report.(sliderLeft := val);
      SafeSendReport(ready1, ready2);
    }

    method SliderRight(val: byte, ready1: bool, ready2: bool)
      requires Valid()
      modifies this
      ensures Valid() && report == old(report).(sliderRight := val, header := report.header)
      ensures sent == old(sent) + if manualReport then [] else Transmitted(Encode(report), ready1, ready2)
      ensures controller == old(controller) && manualReport == old(manualReport)
    {
      report := report.(sliderRight := val);
      SafeSendReport(ready1, ready2);
    }

    /** `setRumbleCallback` and `setLEDCallback` install this controller's hooks in the receiver's table. */
    method SetRumbleCallback(table: X360Controllers.ControllerTable, h: Hook)
      requires table.Valid() && controller < X360Controllers.MAX_CONTROLLERS
      modifies table.controllers
      ensures table.controllers[..] == old(table.controllers[..])[controller := old(table.controllers[controller]).(rumble := h)]
    {
      table.SetRumble(controller, h);
    }

    method SetLedCallback(table: X360Controllers.ControllerTable, h: Hook)
      requires table.Valid() && controller < X360Controllers.MAX_CONTROLLERS
      modifies table.controllers
      ensures table.controllers[..] == old(table.controllers[..])[controller := old(table.controllers[controller]).(led := h)]
    {
      table.SetLed(controller, h);
    }

    /** `stop`: both hooks of this controller removed, nothing else in the table changed. */
    method Stop(table: X360Controllers.ControllerTable)
      requires table.Valid() && controller < X360Controllers.MAX_CONTROLLERS
      modifies table.controllers
      ensures table.controllers[..] == old(table.controllers[..])[controller := old(table.controllers[controller]).(rumble := NoHook, led := NoHook)]
    {
      table.SetRumble(controller, NoHook);
      table.SetLed(controller, NoHook);
    }
  }

  /** The report on the wire carries the axes and buttons as written, whatever it held before. */
  lemma SentFields(r: Report, buttons: uint16, x: int16, y: int16, rx: int16, ry: int16)
    requires Shaped(r)
    ensures var b := Encode(r.(header := DATA_HEADER, buttons := buttons, x := x, y := y, rx := rx, ry := ry));
      b[..4] == DATA_HEADER && LE16(b, 6) == buttons
      && I16At(b, 10) == x && I16At(b, 12) == y && I16At(b, 14) == rx && I16At(b, 16) == ry
  {
    var r' := r.(header := DATA_HEADER, buttons := buttons, x := x, y := y, rx := rx, ry := ry);
    DecodeEncode(r');
  }
}
