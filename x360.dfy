// The Arduino-side driver of the single wired X-Box 360 controller
// (x360.cpp): a 20-byte input report written field by field, sent after
// every change unless the sketch has chosen manual reporting.
module XBox360 {
  import opened Prelude
  import opened Bits

  const REPORT_SIZE: nat := 20

  /** A new report: message type 0, length 0x14, every control at rest. */
  function InitialReport(): (r: seq<byte>)
    ensures |r| == REPORT_SIZE && r[0] == 0 && r[1] == 0x14
  {
    [0, 0x14] + Zeros(18)
  }

  /**
   * The report byte and bit of `button(n)`: `n - 1` is taken in a `uint8_t`,
   * buttons 1 to 8 are bits 0 to 7 of byte 2 and 9 to 16 those of byte 3;
   * any other number (0 wraps to 255) addresses nothing.
   */
  function ButtonSlot(n: byte): (slot: Option<(nat, nat)>)
    ensures slot.Some? <==> 1 <= n <= 16
    ensures slot.Some? ==> slot.value == (2 + (n - 1) / 8, (n - 1) % 8)
  {
    var m := U8(n - 1);
    if m < 8 then Some((2, m % 8)) else if m < 16 then Some((3, m % 8)) else None
  }

  /** The report after `button(n, v)`: the button's bit set (`|= mask`) or cleared (`&= ~mask`). */
  function WithButton(r: seq<byte>, n: byte, v: bool): (r': seq<byte>)
    requires |r| == REPORT_SIZE
    ensures |r'| == REPORT_SIZE
  {
    match ButtonSlot(n)
    case None => r
    case Some((at, bit)) =>
      Pow2Widths();
      Pow2Mono(bit, 8);
      OrWidth(r[at], Pow2(bit), 8);
      AndNotWidth(r[at], Pow2(bit));
      r[at := if v then Or(r[at], Pow2(bit)) else AndNot(r[at], Pow2(bit))]
  }

  /**
   * `button(n, v)` sets or clears exactly its own bit and changes nothing
   * else in the report; a button outside 1 to 16 changes nothing at all.
   */
  lemma ButtonOnly(r: seq<byte>, n: byte, v: bool, j: nat)
    requires |r| == REPORT_SIZE
    ensures !(1 <= n <= 16) ==> WithButton(r, n, v) == r
    ensures 1 <= n <= 16 ==> var at, bit := 2 + (n - 1) / 8, (n - 1) % 8;
      && WithButton(r, n, v) == r[at := WithButton(r, n, v)[at]]
      && (Bit(WithButton(r, n, v)[at], j) <==> if j == bit then v else Bit(r[at], j))
  {
    if 1 <= n <= 16 {
      SetClearBit(r[(n - 1) / 8 + 2], (n - 1) % 8, j);
    }
  }

  /**
   * An axis stored at `at`: the low byte of the `int16_t` and then
   * `(uint16) val >> 8`.
   */
  function WithAxis(r: seq<byte>, at: nat, val: int16): (r': seq<byte>)
    requires at + 2 <= |r|
    ensures |r'| == |r|
  {
    r[at := U8(val)][at + 1 := U16(val) / 0x100]
  }

  /** The axis reads back, as a little-endian `int16_t`, as the value written, and only its two bytes change. */
  lemma AxisRoundTrip(r: seq<byte>, at: nat, val: int16)
    requires at + 2 <= |r|
    ensures I16At(WithAxis(r, at, val), at) == val
    ensures forall k | 0 <= k < |r| && k != at && k != at + 1 :: WithAxis(r, at, val)[k] == r[k]
  {
    var u := U16(val);
    assert U8(val) == u % 0x100 by {
      LowByteOfU16(val);
    }
    assert LE16(WithAxis(r, at, val), at) == u;
  }

  lemma LowByteOfU16(x: int)
    ensures (x % 0x1_0000) % 0x100 == x % 0x100
  {
    var q := x / 0x1_0000;
    assert x == 0x1_0000 * q + x % 0x1_0000;
    assert x == 0x100 * (0x100 * q) + x % 0x1_0000;
    DivModUnique(x % 0x1_0000, 0x100, (x % 0x1_0000) / 0x100, (x % 0x1_0000) % 0x100);
    DivModUnique(x, 0x100, 0x100 * q + (x % 0x1_0000) / 0x100, (x % 0x1_0000) % 0x100);
  }

  /** What one send hands to `x360_tx`: the report, then the zero-length flush; nothing in manual mode. */
  function Delivered(manual: bool, r: seq<byte>): seq<seq<byte>>
  {
    if manual then [] else [r, []]
  }

  class HIDXBox360 {
    const report: array<byte>
    var manualReport: bool
    var enabled: bool
    /** Times `x360_enable` and `x360_disable` were called. */
    var enables: nat
    var disables: nat
    /** The packets passed to `x360_tx`, oldest first. */
    var sent: seq<seq<byte>>

    ghost predicate Valid()
      reads this
    {
      report.Length == REPORT_SIZE
    }

    constructor ()
      ensures Valid() && fresh(report) && report[..] == InitialReport()
      ensures !manualReport && !enabled && enables == 0 && disables == 0 && sent == []
    {
      report := new byte[REPORT_SIZE](i => if i == 1 then 0x14 else 0);
      manualReport := false;
      enabled := false;
      enables := 0;
      disables := 0;
      sent := [];
      new;
      assert report[..] == InitialReport();
    }

    /** `begin`: the driver is enabled once, however often it is called. */
    method Begin()
      modifies this
      ensures enabled && enables == old(enables) + (if old(enabled) then 0 else 1)
      ensures disables == old(disables) && manualReport == old(manualReport) && sent == old(sent)
    {
      if !enabled {
        enables := enables + 1;
        enabled := true;
      }
    }

    /** `end`: disabled only when it was enabled. */
    method End()
      modifies this
      ensures !enabled && disables == old(disables) + (if old(enabled) then 1 else 0)
      ensures enables == old(enables) && manualReport == old(manualReport) && sent == old(sent)
    {
      if enabled {
        disables := disables + 1;
        enabled := false;
      }
    }

    method SetManualReportMode(mode: bool)
      modifies this
      ensures manualReport == mode
      ensures enabled == old(enabled) && enables == old(enables) && disables == old(disables) && sent == old(sent)
      ensures GetManualReportMode() == mode
    {
      manualReport := mode;
    }

    function GetManualReportMode(): (m: bool)
      reads this
      ensures m == manualReport
    {
      manualReport
    }

    /**
     * `send`: the whole report, then a zero-length packet; the waits for the
     * endpoint to be free in between are left to the interrupt.
     */
    method Send()
      requires Valid()
      modifies this
      ensures sent == old(sent) + [report[..], []]
      ensures manualReport == old(manualReport) && enabled == old(enabled) && enables == old(enables) && disables == old(disables)
    {
      sent := sent + [report[..], []];
    }

    /** `safeSendReport`: a send only when not in manual mode. */
    method SafeSendReport()
      requires Valid()
      modifies this
      ensures sent == old(sent) + Delivered(manualReport, report[..])
      ensures manualReport == old(manualReport) && enabled == old(enabled) && enables == old(enables) && disables == old(disables)
    {
      if !manualReport {
        Send();
      }
    }

    method Button(n: byte, v: bool)
      requires Valid()
      modifies this, report
      ensures report[..] == WithButton(old(report[..]), n, v)
      ensures sent == old(sent) + Delivered(manualReport, report[..])
      ensures manualReport == old(manualReport) && enabled == old(enabled) && enables == old(enables) && disables == old(disables)
    {
      var m := U8(n - 1);
      var mask := Pow2(m % 8);
      ghost var r := report[..];
      Pow2Widths();
      Pow2Mono(m % 8, 8);
      OrWidth(report[2], mask, 8);
      OrWidth(report[3], mask, 8);
      AndNotWidth(report[2], mask);
      AndNotWidth(report[3], mask);
      if v {
        if m < 8 {
          report[2] := Or(report[2], mask);
        } else if m < 16 {
          report[3] := Or(report[3], mask);
        }
      } else {
        if m < 8 {
          report[2] := AndNot(report[2], mask);
        } else if m < 16 {
          report[3] := AndNot(report[3], mask);
        }
      }
      assert report[..] == WithButton(r, n, v);
      SafeSendReport();
    }

    /** `X`, `Y`, `XRight`, `YRight`: one axis in bytes 6-7, 8-9, 10-11 or 12-13. */
    method Axis(at: nat, val: int16)
      requires Valid() && at + 2 <= REPORT_SIZE
      modifies this, report
      ensures report[..] == WithAxis(old(report[..]), at, val)
      ensures sent == old(sent) + Delivered(manualReport, report[..])
      ensures manualReport == old(manualReport) && enabled == old(enabled) && enables == old(enables) && disables == old(disables)
    {
      report[at] := U8(val);
      report[at + 1] := U16(val) / 0x100;
      SafeSendReport();
    }

    method X(val: int16)
      requires Valid()
      modifies this, report
      ensures report[..] == WithAxis(old(report[..]), 6, val)
      ensures sent == old(sent) + Delivered(manualReport, report[..])
      ensures manualReport == old(manualReport) && enabled == old(enabled) && enables == old(enables) && disables == old(disables)
    {
      Axis(6, val);
    }

    method Y(val: int16)
      requires Valid()
      modifies this, report
      ensures report[..] == WithAxis(old(report[..]), 8, val)
      ensures sent == old(sent) + Delivered(manualReport, report[..])
      ensures manualReport == old(manualReport) && enabled == old(enabled) && enables == old(enables) && disables == old(disables)
    {
      Axis(8, val);
    }

    method XRight(val: int16)
      requires Valid()
      modifies this, report
      ensures report[..] == WithAxis(old(report[..]), 10, val)
      ensures sent == old(sent) + Delivered(manualReport, report[..])
      ensures manualReport == old(manualReport) && enabled == old(enabled) && enables == old(enables) && disables == old(disables)
    {
      Axis(10, val);
    }

    method YRight(val: int16)
      requires Valid()
      modifies this, report
      ensures report[..] == WithAxis(old(report[..]), 12, val)
      ensures sent == old(sent) + Delivered(manualReport, report[..])
      ensures manualReport == old(manualReport) && enabled == old(enabled) && enables == old(enables) && disables == old(disables)
    {
      Axis(12, val);
    }

    /** `position` and `positionRight`: both axes of a stick, then one send. */
    method Position(x: int16, y: int16)
      requires Valid()
      modifies this, report
      ensures report[..] == WithAxis(WithAxis(old(report[..]), 6, x), 8, y)
      ensures sent == old(sent) + Delivered(manualReport, report[..])
      ensures manualReport == old(manualReport) && enabled == old(enabled) && enables == old(enables) && disables == old(disables)
    {
      report[6] := U8(x);
      report[7] := U16(x) / 0x100;
      report[8] := U8(y);
      report[9] := U16(y) / 0x100;
      SafeSendReport();
    }

    method PositionRight(x: int16, y: int16)
      requires Valid()
      modifies this, report
      ensures report[..] == WithAxis(WithAxis(old(report[..]), 10, x), 12, y)
      ensures sent == old(sent) + Delivered(manualReport, report[..])
      ensures manualReport == old(manualReport) && enabled == old(enabled) && enables == old(enables) && disables == old(disables)
    {
      report[10] := U8(x);
      report[11] := U16(x) / 0x100;
      report[12] := U8(y);
      report[13] := U16(y) / 0x100;
      SafeSendReport();
    }

    /** `sliderLeft` and `sliderRight`: the triggers in bytes 4 and 5. */
    method SliderLeft(val: byte)
      requires Valid()
      modifies this, report
      ensures report[..] == old(report[..])[4 := val]
      ensures sent == old(sent) + Delivered(manualReport, report[..])
      ensures manualReport == old(manualReport) && enabled == old(enabled) && enables == old(enables) && disables == old(disables)
    {
      report[4] := val;
      SafeSendReport();
    }

    method SliderRight(val: byte)
      requires Valid()
      modifies this, report
      ensures report[..] == old(report[..])[5 := val]
      ensures sent == old(sent) + Delivered(manualReport, report[..])
      ensures manualReport == old(manualReport) && enabled == old(enabled) && enables == old(enables) && disables == old(disables)
    {
      report[5] := val;
      SafeSendReport();
    }
  }

  /**
   * Both sticks read back from a report after `position` and
   * `positionRight`, whatever the report held before.
   */
  lemma PositionsReadBack(r: seq<byte>, x: int16, y: int16, rx: int16, ry: int16)
    requires |r| == REPORT_SIZE
    ensures var r' := WithAxis(WithAxis(WithAxis(WithAxis(r, 6, x), 8, y), 10, rx), 12, ry);
      I16At(r', 6) == x && I16At(r', 8) == y && I16At(r', 10) == rx && I16At(r', 12) == ry
      && r'[..6] == r[..6] && r'[14..] == r[14..]
  {
    var r1 := WithAxis(r, 6, x);
    var r2 := WithAxis(r1, 8, y);
    var r3 := WithAxis(r2, 10, rx);
    var r4 := WithAxis(r3, 12, ry);
    AxisRoundTrip(r, 6, x);
    AxisRoundTrip(r1, 8, y);
    AxisRoundTrip(r2, 10, rx);
    AxisRoundTrip(r3, 12, ry);
    assert r4[6..8] == r1[6..8];
    assert r4[8..10] == r2[8..10];
    assert r4[10..12] == r3[10..12];
  }
}
