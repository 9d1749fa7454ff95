// One controller of the multi-controller wired X-Box 360 device
// (USBMultiXBox360.cpp). Its report is the 20-byte buffer the class
// declares, laid out as the wired controller's report: message type,
// length, 16 button bits, two triggers, four `int16_t` axes.
module MultiXBox360 {
  import opened Prelude
  import XBox360
  import X360Controllers

  /**
   * What `sendReport` hands to `usb_multi_x360_tx`: the report at once,
   * then a zero-length flush if the endpoint frees up within 500 ms
   * (`ready`).
   */
  function ReportPackets(r: seq<byte>, ready: bool): (packets: seq<seq<byte>>)
    ensures |packets| >= 1 && packets[0] == r
    ensures |packets| == 2 <==> ready
  {
    if ready then [r, []] else [r]
  }

  /**
   * A send after the first wait: nothing when the endpoint stayed busy
   * (`ready1` false), otherwise the report and perhaps its flush.
   */
  function Delivered(r: seq<byte>, ready1: bool, ready2: bool): (packets: seq<seq<byte>>)
    ensures packets == [] <==> !ready1
    ensures ready1 ==> packets == ReportPackets(r, ready2)
  {
    if ready1 then ReportPackets(r, ready2) else []
  }

  /** The 16 button bits written by `buttons(b)`, little-endian at bytes 2 and 3. */
  function WithButtons(r: seq<byte>, b: uint16): (r': seq<byte>)
    requires |r| == XBox360.REPORT_SIZE
    ensures |r'| == |r| && LE16(r', 2) == b
    ensures forall k | 0 <= k < |r| && k != 2 && k != 3 :: r'[k] == r[k]
  {
    r[2 := b % 0x100][3 := b / 0x100]
  }

  class USBXBox360Controller {
    const report: array<byte>
    var controller: byte
    var manualReport: bool
    /** The packets passed to `usb_multi_x360_tx` for this controller, oldest first. */
    var sent: seq<seq<byte>>

    ghost predicate Valid()
      reads this
    {
      report.Length == XBox360.REPORT_SIZE
    }

    constructor ()
      ensures Valid() && fresh(report) && report[..] == XBox360.InitialReport()
      ensures !manualReport && sent == []
    {
      report := new byte[XBox360.REPORT_SIZE](i => if i == 1 then 0x14 else 0);
      manualReport := false;
      sent := [];
      new;
      assert report[..] == XBox360.InitialReport();
    }

    method SetController(c: byte)
      modifies this
      ensures controller == c && manualReport == old(manualReport) && sent == old(sent)
    {
      controller := c;
    }

    method SendReport(ready: bool)
      requires Valid()
      modifies this
      ensures sent == old(sent) + ReportPackets(report[..], ready)
      ensures controller == old(controller) && manualReport == old(manualReport)
    {
      sent := sent + [report[..]];
      if ready {
        sent := sent + [[]];
      }
    }

    /** `send`: a report once the endpoint is free. */
    method Send(ready1: bool, ready2: bool)
      requires Valid()
      modifies this
      ensures sent == old(sent) + Delivered(report[..], ready1, ready2)
      ensures controller == old(controller) && manualReport == old(manualReport)
    {
      if ready1 {
        SendReport(ready2);
      }
    }

    /** `safeSendReport`: the same, and only when not in manual mode. */
    method SafeSendReport(ready1: bool, ready2: bool)
      requires Valid()
      modifies this
      ensures sent == old(sent) + if manualReport then [] else Delivered(report[..], ready1, ready2)
      ensures controller == old(controller) && manualReport == old(manualReport)
    {
      if !manualReport {
        if ready1 {
          SendReport(ready2);
        }
      }
    }

    method SetManualReportMode(mode: bool)
      modifies this
      ensures manualReport == mode && controller == old(controller) && sent == old(sent)
      ensures GetManualReportMode() == mode
    {
      manualReport := mode;
    }

    function GetManualReportMode(): (m: bool)
      reads this
      ensures m == manualReport
    {
      manualReport
    }

    /**
     * `button(n, v)`: `n - 1` taken in a `uint8_t` and the 16-bit mask
     * `1 << (n - 1)`; numbers outside 1 to 16 leave the report unchanged.
     */
    method Button(n: byte, v: bool, ready1: bool, ready2: bool)
      requires Valid()
      modifies this, report
      ensures report[..] == XBox360.WithButton(old(report[..]), n, v)
      ensures sent == old(sent) + if manualReport then [] else Delivered(report[..], ready1, ready2)
      ensures controller == old(controller) && manualReport == old(manualReport)
    {
      var r := XBox360.WithButton(report[..], n, v);
      var at := 2;
      if 1 <= n <= 16 {
        at := 2 + (n - 1) / 8;
        report[at] := r[at];
      }
      XBox360.ButtonOnly(old(report[..]), n, v, 0);
      assert report[..] == r;
      SafeSendReport(ready1, ready2);
    }

    method Buttons(b: uint16, ready1: bool, ready2: bool)
      requires Valid()
      modifies this, report
      ensures report[..] == WithButtons(old(report[..]), b)
      ensures sent == old(sent) + if manualReport then [] else Delivered(report[..], ready1, ready2)
      ensures controller == old(controller) && manualReport == old(manualReport)
    {
      report[2] := b % 0x100;
      report[3] := b / 0x100;
      SafeSendReport(ready1, ready2);
    }

    /** `X`, `Y`, `XRight`, `YRight`: one `int16_t` axis at byte 6, 8, 10 or 12. */
    method Axis(at: nat, val: int16, ready1: bool, ready2: bool)
      requires Valid() && at + 2 <= XBox360.REPORT_SIZE
      modifies this, report
      ensures report[..] == XBox360.WithAxis(old(report[..]), at, val)
      ensures sent == old(sent) + if manualReport then [] else Delivered(report[..], ready1, ready2)
      ensures controller == old(controller) && manualReport == old(manualReport)
    {
      report[at] := U8(val);
      report[at + 1] := U16(val) / 0x100;
      SafeSendReport(ready1, ready2);
    }

    method X(val: int16, ready1: bool, ready2: bool)
      requires Valid()
      modifies this, report
      ensures report[..] == XBox360.WithAxis(old(report[..]), 6, val)
      ensures sent == old(sent) + if manualReport then [] else Delivered(report[..], ready1, ready2)
      ensures controller == old(controller) && manualReport == old(manualReport)
    {
      Axis(6, val, ready1, ready2);
    }

    method Y(val: int16, ready1: bool, ready2: bool)
      requires Valid()
      modifies this, report
      ensures report[..] == XBox360.WithAxis(old(report[..]), 8, val)
      ensures sent == old(sent) + if manualReport then [] else Delivered(report[..], ready1, ready2)
      ensures controller == old(controller) && manualReport == old(manualReport)
    {
      Axis(8, val, ready1, ready2);
    }

    method XRight(val: int16, ready1: bool, ready2: bool)
      requires Valid()
      modifies this, report
      ensures report[..] == XBox360.WithAxis(old(report[..]), 10, val)
      ensures sent == old(sent) + if manualReport then [] else Delivered(report[..], ready1, ready2)
      ensures controller == old(controller) && manualReport == old(manualReport)
    {
      Axis(10, val, ready1, ready2);
    }

    method YRight(val: int16, ready1: bool, ready2: bool)
      requires Valid()
      modifies this, report
      ensures report[..] == XBox360.WithAxis(old(report[..]), 12, val)
      ensures sent == old(sent) + if manualReport then [] else Delivered(report[..], ready1, ready2)
      ensures controller == old(controller) && manualReport == old(manualReport)
    {
      Axis(12, val, ready1, ready2);
    }

    method Position(x: int16, y: int16, ready1: bool, ready2: bool)
      requires Valid()
      modifies this, report
      ensures report[..] == XBox360.WithAxis(XBox360.WithAxis(old(report[..]), 6, x), 8, y)
      ensures sent == old(sent) + if manualReport then [] else Delivered(report[..], ready1, ready2)
      ensures controller == old(controller) && manualReport == old(manualReport)
    {
      report[6] := U8(x);
      report[7] := U16(x) / 0x100;
      report[8] := U8(y);
      report[9] := U16(y) / 0x100;
      SafeSendReport(ready1, ready2);
    }

    method PositionRight(x: int16, y: int16, ready1: bool, ready2: bool)
      requires Valid()
      modifies this, report
      ensures report[..] == XBox360.WithAxis(XBox360.WithAxis(old(report[..]), 10, x), 12, y)
      ensures sent == old(sent) + if manualReport then [] else Delivered(report[..], ready1, ready2)
      ensures controller == old(controller) && manualReport == old(manualReport)
    {
      report[10] := U8(x);
      report[11] := U16(x) / 0x100;
      report[12] := U8(y);
      report[13] := U16(y) / 0x100;
      SafeSendReport(ready1, ready2);
    }

    method SliderLeft(val: byte, ready1: bool, ready2: bool)
      requires Valid()
      modifies this, report
      ensures report[..] == old(report[..])[4 := val]
      ensures sent == old(sent) + if manualReport then [] else Delivered(report[..], ready1, ready2)
      ensures controller == old(controller) && manualReport == old(manualReport)
    {
      report[4] := val;
      SafeSendReport(ready1, ready2);
    }

    method SliderRight(val: byte, ready1: bool, ready2: bool)
      requires Valid()
      modifies this, report
      ensures report[..] == old(report[..])[5 := val]
      ensures sent == old(sent) + if manualReport then [] else Delivered(report[..], ready1, ready2)
      ensures controller == old(controller) && manualReport == old(manualReport)
    {
      report[5] := val;
      SafeSendReport(ready1, ready2);
    }

    method SetRumbleCallback(table: X360Controllers.ControllerTable, h: Hook)
      requires table.Valid() && controller < X360Controllers.MAX_CONTROLLERS
      modifies table.controllers
      ensures table.controllers[..] == old(table.controllers[..])[controller := old(table.controllers[controller]).(rumble := h)]
    {
      table.SetRumble(controller, h);
    }

    method SetLedCallback(table: X360Controllers.ControllerTable, h: Hook)
      requires table.Valid() && controller < X360Controllers.MAX_CONTROLLERS
      modifies table.controllers
      ensures table.controllers[..] == old(table.controllers[..])[controller := old(table.controllers[controller]).(led := h)]
    {
      table.SetLed(controller, h);
    }

    /** `stop`: both hooks of this controller removed. */
    method Stop(table: X360Controllers.ControllerTable)
      requires table.Valid() && controller < X360Controllers.MAX_CONTROLLERS
      modifies table.controllers
      ensures table.controllers[..] == old(table.controllers[..])[controller := old(table.controllers[controller]).(rumble := NoHook, led := NoHook)]
    {
      table.SetRumble(controller, NoHook);
      table.SetLed(controller, NoHook);
    }
  }
}
