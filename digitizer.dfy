// The HID digitizer of the composite device: an absolute pointer whose
// report holds a button set and two 16-bit coordinates.  The report's byte
// layout is declared outside the modelled sources, so the model keeps the
// report as its fields and records each report handed to `sendReport`.
module Digitizer {
  import opened Prelude
  import opened Mouse
  import Bits

  datatype DigitizerReport = DigitizerReport(buttons: byte, x: int16, y: int16)

  /** The reports a `buttons(b)` call hands to `sendReport`: one, only when the buttons change. */
  function ButtonReports(before: DigitizerReport, b: byte): (out: seq<DigitizerReport>)
    ensures out == [] <==> b == before.buttons
    ensures out != [] ==> out == [before.(buttons := b)]
  {
    if b != before.buttons then [before.(buttons := b)] else []
  }

  /** `HIDDigitizer`: the report and the reports sent so far. */
  class HidDigitizer {
    var report: DigitizerReport
    var sent: seq<DigitizerReport>

    constructor (initial: DigitizerReport)
      ensures report == initial && sent == []
    {
      report := initial;
      sent := [];
    }

    /** `move(x, y)`: both coordinates stored and the report sent. */
    method Move(x: int16, y: int16)
      modifies this
      ensures report == old(report).(x := x, y := y)
      ensures sent == old(sent) + [report]
    {
      report := report.(x := x, y := y);
      sent := sent + [report];
    }

    /** `buttons(b)`. */
    method SetButtons(b: byte)
      modifies this
      ensures report == old(report).(buttons := b)
      ensures sent == old(sent) + ButtonReports(old(report), b)
    {
      if b != report.buttons {
        report := report.(buttons := b);
        sent := sent + [report];
      }
    }

    /** `press(b)`. */
    method Press(b: byte)
      modifies this
      ensures report == old(report).(buttons := WithPressed(old(report).buttons, b))
      ensures sent == old(sent) + ButtonReports(old(report), WithPressed(old(report).buttons, b))
    {
      SetButtons(WithPressed(report.buttons, b));
    }

    /** `release(b)`. */
    method Release(b: byte)
      modifies this
      ensures report == old(report).(buttons := WithReleased(old(report).buttons, b))
      ensures sent == old(sent) + ButtonReports(old(report), WithReleased(old(report).buttons, b))
    {
      SetButtons(WithReleased(report.buttons, b));
    }

    /** `isPressed(b)`: `(b & report.buttons) != 0`. */
    method IsPressedNow(b: byte) returns (p: bool)
      ensures p == IsPressed(report.buttons, b)
    {
      p := Bits.And(b, report.buttons) != 0;
    }
  }
}
