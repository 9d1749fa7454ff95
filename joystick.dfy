// The HID joystick of the composite device: a 13-byte report of 32
// buttons, a 4-bit hat and six 10-bit axes packed into bit fields, and the
// setters that store one field at a time.
module Joystick {
  import opened Prelude
  import opened Bits
  import HidDevice

  /** `sizeof(JoystickReport_t)`. */
  const REPORT_SIZE: nat := 13
  const USB_HID_JOYSTICK_REPORT_ID: byte := 3
  /** The largest value a 10-bit axis holds. */
  const AXIS_MAX: nat := 1023
  /** The hat value meaning "no direction". */
  const HAT_CENTRED: nat := 15

  /**
   * The fields of `JoystickReport_t`: byte 0 is the report ID, bytes 1-4
   * the little-endian `buttons`, and from byte 5 on the bit fields `hat:4`,
   * `x`, `y`, `rx`, `ry`, `sliderLeft` and `sliderRight` of 10 bits each,
   * allocated from the least significant bit up.
   */
  datatype JoyReport = JoyReport(buttons: uint32, hat: nat, x: nat, y: nat, rx: nat, ry: nat,
                                 sliderLeft: nat, sliderRight: nat)

  predicate InRange(j: JoyReport)
  {
    j.hat < 16 && j.x <= AXIS_MAX && j.y <= AXIS_MAX && j.rx <= AXIS_MAX && j.ry <= AXIS_MAX
    && j.sliderLeft <= AXIS_MAX && j.sliderRight <= AXIS_MAX
  }

  /** The fields as the bit-field layout reads them out of the report bytes. */
  function Decode(r: seq<byte>): (j: JoyReport)
    requires |r| == REPORT_SIZE
    ensures InRange(j)
  {
    var b5: int, b6: int, b7: int, b8: int, b9: int, b10: int, b11: int, b12: int := r[5], r[6], r[7], r[8], r[9], r[10], r[11], r[12];
    JoyReport(LE32(r, 1), b5 % 16,
              b5 / 16 + 16 * (b6 % 64),
              b6 / 64 + 4 * b7,
              b8 + 256 * (b9 % 4),
              b9 / 4 + 64 * (b10 % 16),
              b10 / 16 + 16 * (b11 % 64),
              b11 / 64 + 4 * b12)
  }

  /** The report bytes that hold `j` behind report ID `id`. */
  function Encode(id: byte, j: JoyReport): (r: seq<byte>)
    requires InRange(j)
    ensures |r| == REPORT_SIZE
  {
    [id] + LE32Bytes(j.buttons)
    + [j.hat + 16 * (j.x % 16),
       j.x / 16 + 64 * (j.y % 4),
       j.y / 4,
       j.rx % 256,
       j.rx / 256 + 4 * (j.ry % 64),
       j.ry / 64 + 16 * (j.sliderLeft % 16),
       j.sliderLeft / 16 + 64 * (j.sliderRight % 4),
       j.sliderRight / 4]
  }

  /** Every field in range survives the trip through the bytes. */
  lemma DecodeEncode(id: byte, j: JoyReport)
    requires InRange(j)
    ensures Decode(Encode(id, j)) == j && Encode(id, j)[0] == id
  {
    var r := Encode(id, j);
    assert r[1..5] == LE32Bytes(j.buttons);
    assert LE32(r, 1) == LE32(r[1..5], 0);
  }

  /** And every report is the encoding of its fields. */
  lemma EncodeDecode(r: seq<byte>)
    requires |r| == REPORT_SIZE
    ensures Encode(r[0], Decode(r)) == r
  {
    var e := Encode(r[0], Decode(r));
    assert LE32(r, 1) == LE32(r[1..5], 0);
    LE32BytesOf(r[1..5]);
    assert e[1..5] == r[1..5];
    FieldsRoundTrip(r);
    assert e == e[..1] + e[1..5] + e[5..];
    assert r == r[..1] + r[1..5] + r[5..];
  }

  /** The bit-field bytes 5 to 12 survive the trip through the fields. */
  lemma FieldsRoundTrip(r: seq<byte>)
    requires |r| == REPORT_SIZE
    ensures Encode(r[0], Decode(r))[5..] == r[5..]
  {
    var j := Decode(r);
    var e := Encode(r[0], j);
    DivModUnique(j.x, 16, r[6] % 64, r[5] / 16);
    DivModUnique(j.y, 4, r[7], r[6] / 64);
    DivModUnique(j.rx, 256, r[9] % 4, r[8]);
    DivModUnique(j.ry, 64, r[10] % 16, r[9] / 4);
    DivModUnique(j.sliderLeft, 16, r[11] % 64, r[10] / 16);
    DivModUnique(j.sliderRight, 4, r[12], r[11] / 64);
    assert e[5] == j.hat + 16 * (j.x % 16) && j.hat == r[5] % 16;
    assert e[5] == r[5] && e[6] == r[6] && e[7] == r[7] && e[8] == r[8];
    assert e[9] == r[9] && e[10] == r[10] && e[11] == r[11] && e[12] == r[12];
  }

  /** What `HIDJoystick()` stores: no buttons, the hat centred, the sticks at mid travel, the sliders at 0. */
  const DEFAULT_REPORT := JoyReport(0, HAT_CENTRED, 512, 512, 512, 512, 0, 0)

  lemma DefaultBytes(id: byte)
    ensures Encode(id, DEFAULT_REPORT) == [id, 0, 0, 0, 0, 15, 32, 128, 0, 2, 8, 0, 0]
  {
  }

  /** The constructor's field stores on a freshly zeroed report give the default fields. */
  lemma DefaultStores(r: seq<byte>)
    requires |r| == REPORT_SIZE && forall k :: 1 <= k < REPORT_SIZE ==> r[k] == 0
    ensures Decode(r[5 := 15][6 := 32][7 := 128][8 := 0][9 := 2][10 := 8]) == DEFAULT_REPORT
  {
  }

  /** `if (val > 1023) val = 1023`. */
  function Clamp(val: uint16): (c: nat)
    ensures c <= AXIS_MAX && (c == val || (val > AXIS_MAX && c == AXIS_MAX))
  {
    if val > AXIS_MAX then AXIS_MAX else val
  }

  // The setters on the report bytes.  Each `(b & keep) | (val << n)`
  // combines bit ranges that do not overlap, so it is written as the sum
  // of the kept bits and the shifted, truncated value.

  /** `X`: the low 4 bits in the high nibble of byte 5, the high 6 bits in the low 6 of byte 6. */
  function WithX(r: seq<byte>, val: uint16): (r': seq<byte>)
    requires |r| == REPORT_SIZE
    ensures |r'| == REPORT_SIZE
  {
    var c := Clamp(val);
    r[5 := r[5] % 16 + 16 * (c % 16)][6 := 64 * (r[6] / 64) + c / 16]
  }

  /** `Y`: the low 2 bits in bits 6-7 of byte 6, the high 8 in byte 7. */
  function WithY(r: seq<byte>, val: uint16): (r': seq<byte>)
    requires |r| == REPORT_SIZE
    ensures |r'| == REPORT_SIZE
  {
    var c := Clamp(val);
    r[6 := r[6] % 64 + 64 * (c % 4)][7 := c / 4]
  }

  /** `position`: byte 6 rebuilt from both values. */
  function WithPosition(r: seq<byte>, x: uint16, y: uint16): (r': seq<byte>)
    requires |r| == REPORT_SIZE
    ensures |r'| == REPORT_SIZE
  {
    var cx, cy := Clamp(x), Clamp(y);
    r[5 := r[5] % 16 + 16 * (cx % 16)][6 := cx / 16 + 64 * (cy % 4)][7 := cy / 4]
  }

  /** `Xrotate`: the low 8 bits in byte 8, the high 2 in bits 0-1 of byte 9. */
  function WithXrotate(r: seq<byte>, val: uint16): (r': seq<byte>)
    requires |r| == REPORT_SIZE
    ensures |r'| == REPORT_SIZE
  {
    var c := Clamp(val);
    r[8 := c % 256][9 := 4 * (r[9] / 4) + c / 256]
  }

  /** `Yrotate`: the low 6 bits in bits 2-7 of byte 9, the high 4 in the low nibble of byte 10. */
  function WithYrotate(r: seq<byte>, val: uint16): (r': seq<byte>)
    requires |r| == REPORT_SIZE
    ensures |r'| == REPORT_SIZE
  {
    var c := Clamp(val);
    r[9 := r[9] % 4 + 4 * (c % 64)][10 := 16 * (r[10] / 16) + c / 64]
  }

  /** `sliderLeft`: the high nibble of byte 10 and the low 6 bits of byte 11. */
  function WithSliderLeft(r: seq<byte>, val: uint16): (r': seq<byte>)
    requires |r| == REPORT_SIZE
    ensures |r'| == REPORT_SIZE
  {
    var c := Clamp(val);
    r[10 := r[10] % 16 + 16 * (c % 16)][11 := 64 * (r[11] / 64) + c / 16]
  }

  /** `sliderRight`: bits 6-7 of byte 11 and all of byte 12. */
  function WithSliderRight(r: seq<byte>, val: uint16): (r': seq<byte>)
    requires |r| == REPORT_SIZE
    ensures |r'| == REPORT_SIZE
  {
    var c := Clamp(val);
    r[11 := r[11] % 64 + 64 * (c % 4)][12 := c / 4]
  }

  /** `slider`: byte 11 rebuilt with the value in both sliders. */
  function WithSlider(r: seq<byte>, val: uint16): (r': seq<byte>)
    requires |r| == REPORT_SIZE
    ensures |r'| == REPORT_SIZE
  {
    var c := Clamp(val);
    r[10 := r[10] % 16 + 16 * (c % 16)][11 := c / 16 + 64 * (c % 4)][12 := c / 4]
  }

  /** The hat position for a direction in degrees: eight sectors from north clockwise, 15 outside them. */
  function HatValue(dir: int16): (v: nat)
    ensures v <= 7 || v == HAT_CENTRED
  {
    if dir < 0 then 15
    else if dir < 23 then 0
    else if dir < 68 then 1
    else if dir < 113 then 2
    else if dir < 158 then 3
    else if dir < 203 then 4
    else if dir < 245 then 5
    else if dir < 293 then 6
    else if dir < 338 then 7
    else 15
  }

  /** `hat`: the low nibble of byte 5. */
  function WithHat(r: seq<byte>, dir: int16): (r': seq<byte>)
    requires |r| == REPORT_SIZE
    ensures |r'| == REPORT_SIZE
  {
    r[5 := 16 * (r[5] / 16) + HatValue(dir)]
  }

  /** Where `button(n, v)` keeps button `n`: the byte and the bit; None outside 1 to 32. */
  function ButtonSlot(n: byte): (slot: Option<(nat, nat)>)
    ensures slot.Some? <==> 1 <= n <= 32
    ensures slot.Some? ==> slot.value == (1 + (n - 1) / 8, (n - 1) % 8)
  {
    var m := U8(n - 1);
    if m < 8 then Some((1, m % 8))
    else if m < 16 then Some((2, m % 8))
    else if m < 24 then Some((3, m % 8))
    else if m < 32 then Some((4, m % 8))
    else None
  }

  /** `button(n, v)`: the button's bit set (`|= mask`) or cleared (`&= ~mask`). */
  function WithButton(r: seq<byte>, n: byte, v: bool): (r': seq<byte>)
    requires |r| == REPORT_SIZE
    ensures |r'| == REPORT_SIZE
  {
    match ButtonSlot(n)
    case None => r
    case Some((at, bit)) =>
      Pow2Widths();
      Pow2Mono(bit, 8);
      OrWidth(r[at], Pow2(bit), 8);
      AndNotWidth(r[at], Pow2(bit));
      r[at := if v then Or(r[at], Pow2(bit)) else AndNot(r[at], Pow2(bit))]
  }

  // Each setter changes its own fields, to the clamped value, and no other.

  lemma XOnly(r: seq<byte>, val: uint16)
    requires |r| == REPORT_SIZE
    ensures WithX(r, val)[0] == r[0] && Decode(WithX(r, val)) == Decode(r).(x := Clamp(val))
  {
    var c := Clamp(val);
    DivModUnique(r[5] % 16 + 16 * (c % 16), 16, c % 16, r[5] % 16);
    DivModUnique(64 * (r[6] / 64) + c / 16, 64, r[6] / 64, c / 16);
  }

  lemma YOnly(r: seq<byte>, val: uint16)
    requires |r| == REPORT_SIZE
    ensures WithY(r, val)[0] == r[0] && Decode(WithY(r, val)) == Decode(r).(y := Clamp(val))
  {
    var c := Clamp(val);
    DivModUnique(r[6] % 64 + 64 * (c % 4), 64, c % 4, r[6] % 64);
  }

  lemma PositionOnly(r: seq<byte>, x: uint16, y: uint16)
    requires |r| == REPORT_SIZE
    ensures WithPosition(r, x, y)[0] == r[0]
    ensures Decode(WithPosition(r, x, y)) == Decode(r).(x := Clamp(x), y := Clamp(y))
  {
    var cx, cy := Clamp(x), Clamp(y);
    DivModUnique(r[5] % 16 + 16 * (cx % 16), 16, cx % 16, r[5] % 16);
    DivModUnique(cx / 16 + 64 * (cy % 4), 64, cy % 4, cx / 16);
  }

  lemma XrotateOnly(r: seq<byte>, val: uint16)
    requires |r| == REPORT_SIZE
    ensures WithXrotate(r, val)[0] == r[0] && Decode(WithXrotate(r, val)) == Decode(r).(rx := Clamp(val))
  {
    var c := Clamp(val);
    DivModUnique(4 * (r[9] / 4) + c / 256, 4, r[9] / 4, c / 256);
  }

  lemma YrotateOnly(r: seq<byte>, val: uint16)
    requires |r| == REPORT_SIZE
    ensures WithYrotate(r, val)[0] == r[0] && Decode(WithYrotate(r, val)) == Decode(r).(ry := Clamp(val))
  {
    var c := Clamp(val);
    DivModUnique(r[9] % 4 + 4 * (c % 64), 4, c % 64, r[9] % 4);
    DivModUnique(16 * (r[10] / 16) + c / 64, 16, r[10] / 16, c / 64);
  }

  lemma SliderLeftOnly(r: seq<byte>, val: uint16)
    requires |r| == REPORT_SIZE
    ensures WithSliderLeft(r, val)[0] == r[0]
    ensures Decode(WithSliderLeft(r, val)) == Decode(r).(sliderLeft := Clamp(val))
  {
    var c := Clamp(val);
    DivModUnique(r[10] % 16 + 16 * (c % 16), 16, c % 16, r[10] % 16);
    DivModUnique(64 * (r[11] / 64) + c / 16, 64, r[11] / 64, c / 16);
  }

  lemma SliderRightOnly(r: seq<byte>, val: uint16)
    requires |r| == REPORT_SIZE
    ensures WithSliderRight(r, val)[0] == r[0]
    ensures Decode(WithSliderRight(r, val)) == Decode(r).(sliderRight := Clamp(val))
  {
    var c := Clamp(val);
    DivModUnique(r[11] % 64 + 64 * (c % 4), 64, c % 4, r[11] % 64);
  }

  /** `slider` moves both sliders to the same value. */
  lemma SliderBoth(r: seq<byte>, val: uint16)
    requires |r| == REPORT_SIZE
    ensures WithSlider(r, val)[0] == r[0]
    ensures Decode(WithSlider(r, val)) == Decode(r).(sliderLeft := Clamp(val), sliderRight := Clamp(val))
  {
    var c := Clamp(val);
    DivModUnique(r[10] % 16 + 16 * (c % 16), 16, c % 16, r[10] % 16);
    DivModUnique(c / 16 + 64 * (c % 4), 64, c % 4, c / 16);
  }

  lemma HatOnly(r: seq<byte>, dir: int16)
    requires |r| == REPORT_SIZE
    ensures WithHat(r, dir)[0] == r[0] && Decode(WithHat(r, dir)) == Decode(r).(hat := HatValue(dir))
  {
    DivModUnique(16 * (r[5] / 16) + HatValue(dir), 16, r[5] / 16, HatValue(dir));
  }

  /**
   * The hat is quantised into eight sectors: a direction from 0 to 337
   * degrees gives the sector `v` with `45 v - 25 <= dir < 45 v + 23`, the
   * sectors follow the direction, and anything else is centred.
   */
  lemma HatSectors(dir: int16, dir': int16)
    ensures HatValue(dir) == HAT_CENTRED <==> dir < 0 || dir >= 338
    ensures 0 <= dir < 338 ==> 45 * HatValue(dir) - 25 <= dir < 45 * HatValue(dir) + 23
    ensures 0 <= dir <= dir' < 338 ==> HatValue(dir) <= HatValue(dir')
  {
  }

  /**
   * `button(n, v)` sets or clears bit `n - 1` of `buttons` and changes no
   * other bit and no other field; a button outside 1 to 32 changes nothing.
   */
  lemma ButtonOnly(r: seq<byte>, n: byte, v: bool, j: nat)
    requires |r| == REPORT_SIZE && j < 32
    ensures !(1 <= n <= 32) ==> WithButton(r, n, v) == r
    ensures WithButton(r, n, v)[0] == r[0]
    ensures Decode(WithButton(r, n, v)) == Decode(r).(buttons := Decode(WithButton(r, n, v)).buttons)
    ensures 1 <= n <= 32 ==> (Bit(Decode(WithButton(r, n, v)).buttons, j) <==> if j == n - 1 then v else Bit(Decode(r).buttons, j))
  {
    if 1 <= n <= 32 {
      var r' := WithButton(r, n, v);
      ButtonBits(r, j);
      ButtonBits(r', j);
      SetClearBit(r[1 + (n - 1) / 8], (n - 1) % 8, j % 8);
      if j / 8 != (n - 1) / 8 {
        assert j != n - 1;
      } else if j % 8 == (n - 1) % 8 {
        assert j == n - 1;
      } else {
        assert j != n - 1;
      }
    }
  }

  /** Bit `j` of the little-endian `buttons` is bit `j % 8` of byte `1 + j / 8`. */
  lemma ButtonBits(r: seq<byte>, j: nat)
    requires |r| == REPORT_SIZE && j < 32
    ensures Bit(LE32(r, 1), j) <==> Bit(r[1 + j / 8], j % 8)
  {
    Pow2Widths();
    var hi3: nat := r[4];
    var hi2: nat := r[3] + 256 * hi3;
    var hi1: nat := r[2] + 256 * hi2;
    assert LE32(r, 1) == r[1] + Pow2(8) * hi1;
    BitOfSum(r[1], hi1, 8, j);
    if j >= 8 {
      BitOfSum(r[2], hi2, 8, j - 8);
      if j >= 16 {
        BitOfSum(r[3], hi3, 8, j - 16);
      }
    }
  }

  /** The reports a setter hands to `sendReport`: none in manual mode. */
  function Sends(manual: bool, w: seq<byte>): (out: seq<seq<byte>>)
    ensures manual <==> out == []
  {
    if manual then [] else [w]
  }

  /**
   * `HIDJoystick`: the `JoystickReport_t` memory, its reporter, the manual
   * report mode and the reports handed to `sendReport` (whose queueing is
   * `HidDevice.Reporter.SendReport`).
   */
  class HidJoystick {
    const joyReport: array<byte>
    const reporter: HidDevice.Reporter
    var manualReport: bool
    var sent: seq<seq<byte>>

    ghost predicate Valid()
      reads this, reporter
    {
      joyReport.Length == REPORT_SIZE && reporter.storage == joyReport && reporter.Valid()
      && reporter.start == (if reporter.reportID == 0 then 1 else 0)
    }

    /** The bytes `sendReport` transmits. */
    function Wire(): seq<byte>
      requires Valid()
      reads this, reporter, joyReport
    {
      HidDevice.ReportView(joyReport[..], reporter.reportID)
    }

    /** `HIDJoystick(reportID)`: the default fields, automatic reports, nothing sent. */
    constructor (reportID: byte)
      ensures Valid() && fresh(joyReport) && fresh(reporter) && reporter.reportID == reportID
      ensures Decode(joyReport[..]) == DEFAULT_REPORT && !manualReport && sent == []
      ensures reportID != 0 ==> joyReport[0] == reportID
    {
      var buf := new byte[REPORT_SIZE];
      var r := new HidDevice.Reporter(buf, reportID);
      ghost var zeroed := buf[..];
      // buttons = 0, hat = 15, x = y = rx = ry = 512, sliders = 0, as bytes.
      buf[5], buf[6], buf[7], buf[8], buf[9], buf[10] := 15, 32, 128, 0, 2, 8;
      assert buf[..] == zeroed[5 := 15][6 := 32][7 := 128][8 := 0][9 := 2][10 := 8];
      DefaultStores(zeroed);
      joyReport := buf;
      reporter := r;
      manualReport := false;
      sent := [];
    }

    method SetManualReportMode(mode: bool)
      modifies this
      ensures manualReport == mode && sent == old(sent)
      ensures GetManualReportMode() == mode
    {
      manualReport := mode;
    }

    function GetManualReportMode(): (m: bool)
      reads this
      ensures m == manualReport
    {
      manualReport
    }

    /** `send()`: the report goes to `sendReport` whatever the mode. */
    method Send()
      requires Valid()
      modifies this
      ensures manualReport == old(manualReport) && sent == old(sent) + [Wire()]
    {
      assert reporter.Report() == Wire();
      sent := sent + [reporter.Report()];
    }

    /** `safeSendReport()`: the report is sent only outside manual mode. */
    method SafeSendReport()
      requires Valid()
      modifies this
      ensures manualReport == old(manualReport) && sent == old(sent) + Sends(manualReport, Wire())
    {
      if !manualReport {
        Send();
      }
    }

    /** `button(n, v)`. */
    method Button(n: byte, v: bool)
      requires Valid()
      modifies this, joyReport
      ensures Valid() && manualReport == old(manualReport)
      ensures joyReport[..] == WithButton(old(joyReport[..]), n, v)
      ensures sent == old(sent) + Sends(manualReport, Wire())
    {
      var m := U8(n - 1);
      var mask := Pow2(m % 8);
      ghost var r := joyReport[..];
      Pow2Widths();
      Pow2Mono(m % 8, 8);
      if m < 32 {
        var at := 1 + m / 8;
        OrWidth(joyReport[at], mask, 8);
        AndNotWidth(joyReport[at], mask);
        if v {
          joyReport[at] := Or(joyReport[at], mask);
        } else {
          joyReport[at] := AndNot(joyReport[at], mask);
        }
      }
      assert joyReport[..] == WithButton(r, n, v);
      SafeSendReport();
    }

    /** `X(val)`: the `x` axis. */
    method X(val: uint16)
      requires Valid()
      modifies this, joyReport
      ensures Valid() && manualReport == old(manualReport)
      ensures joyReport[..] == WithX(old(joyReport[..]), val)
      ensures sent == old(sent) + Sends(manualReport, Wire())
    {
      var c: nat := val;
      if c > AXIS_MAX {
        c := AXIS_MAX;
      }
      joyReport[5] := joyReport[5] % 16 + 16 * (c % 16);
      joyReport[6] := 64 * (joyReport[6] / 64) + c / 16;
      SafeSendReport();
    }

    /** `Y(val)`: the `y` axis. */
    method Y(val: uint16)
      requires Valid()
      modifies this, joyReport
      ensures Valid() && manualReport == old(manualReport)
      ensures joyReport[..] == WithY(old(joyReport[..]), val)
      ensures sent == old(sent) + Sends(manualReport, Wire())
    {
      var c: nat := val;
      if c > AXIS_MAX {
        c := AXIS_MAX;
      }
      joyReport[6] := joyReport[6] % 64 + 64 * (c % 4);
      joyReport[7] := c / 4;
      SafeSendReport();
    }

    /** `Xrotate(val)`: the `rx` axis. */
    method Xrotate(val: uint16)
      requires Valid()
      modifies this, joyReport
      ensures Valid() && manualReport == old(manualReport)
      ensures joyReport[..] == WithXrotate(old(joyReport[..]), val)
      ensures sent == old(sent) + Sends(manualReport, Wire())
    {
      var c: nat := val;
      if c > AXIS_MAX {
        c := AXIS_MAX;
      }
      joyReport[8] := c % 256;
      joyReport[9] := 4 * (joyReport[9] / 4) + c / 256;
      SafeSendReport();
    }

    /** `Yrotate(val)`: the `ry` axis. */
    method Yrotate(val: uint16)
      requires Valid()
      modifies this, joyReport
      ensures Valid() && manualReport == old(manualReport)
      ensures joyReport[..] == WithYrotate(old(joyReport[..]), val)
      ensures sent == old(sent) + Sends(manualReport, Wire())
    {
      var c: nat := val;
      if c > AXIS_MAX {
        c := AXIS_MAX;
      }
      joyReport[9] := joyReport[9] % 4 + 4 * (c % 64);
      joyReport[10] := 16 * (joyReport[10] / 16) + c / 64;
      SafeSendReport();
    }

    /** `sliderLeft(val)`: the left slider. */
    method SliderLeft(val: uint16)
      requires Valid()
      modifies this, joyReport
      ensures Valid() && manualReport == old(manualReport)
      ensures joyReport[..] == WithSliderLeft(old(joyReport[..]), val)
      ensures sent == old(sent) + Sends(manualReport, Wire())
    {
      var c: nat := val;
      if c > AXIS_MAX {
        c := AXIS_MAX;
      }
      joyReport[10] := joyReport[10] % 16 + 16 * (c % 16);
      joyReport[11] := 64 * (joyReport[11] / 64) + c / 16;
      SafeSendReport();
    }

    /** `sliderRight(val)`: the right slider. */
    method SliderRight(val: uint16)
      requires Valid()
      modifies this, joyReport
      ensures Valid() && manualReport == old(manualReport)
      ensures joyReport[..] == WithSliderRight(old(joyReport[..]), val)
      ensures sent == old(sent) + Sends(manualReport, Wire())
    {
      var c: nat := val;
      if c > AXIS_MAX {
        c := AXIS_MAX;
      }
      joyReport[11] := joyReport[11] % 64 + 64 * (c % 4);
      joyReport[12] := c / 4;
      SafeSendReport();
    }

    /** `slider(val)`: both sliders. */
    method Slider(val: uint16)
      requires Valid()
      modifies this, joyReport
      ensures Valid() && manualReport == old(manualReport)
      ensures joyReport[..] == WithSlider(old(joyReport[..]), val)
      ensures sent == old(sent) + Sends(manualReport, Wire())
    {
      var c: nat := val;
      if c > AXIS_MAX {
        c := AXIS_MAX;
      }
      joyReport[10] := joyReport[10] % 16 + 16 * (c % 16);
      joyReport[11] := c / 16 + 64 * (c % 4);
      joyReport[12] := c / 4;
      SafeSendReport();
    }

    /** `position(x, y)`: both stick axes. */
    method Position(x: uint16, y: uint16)
      requires Valid()
      modifies this, joyReport
      ensures Valid() && manualReport == old(manualReport)
      ensures joyReport[..] == WithPosition(old(joyReport[..]), x, y)
      ensures sent == old(sent) + Sends(manualReport, Wire())
    {
      var cx: nat := x;
      var cy: nat := y;
      if cx > AXIS_MAX {
        cx := AXIS_MAX;
      }
      if cy > AXIS_MAX {
        cy := AXIS_MAX;
      }
      joyReport[5] := joyReport[5] % 16 + 16 * (cx % 16);
      joyReport[6] := cx / 16 + 64 * (cy % 4);
      joyReport[7] := cy / 4;
      SafeSendReport();
    }

    /** `hat(dir)`. */
    method Hat(dir: int16)
      requires Valid()
      modifies this, joyReport
      ensures Valid() && manualReport == old(manualReport)
      ensures joyReport[..] == WithHat(old(joyReport[..]), dir)
      ensures sent == old(sent) + Sends(manualReport, Wire())
    {
      var val: nat;
      if dir < 0 {
        val := 15;
      } else if dir < 23 {
        val := 0;
      } else if dir < 68 {
        val := 1;
      } else if dir < 113 {
        val := 2;
      } else if dir < 158 {
        val := 3;
      } else if dir < 203 {
        val := 4;
      } else if dir < 245 {
        val := 5;
      } else if dir < 293 {
        val := 6;
      } else if dir < 338 {
        val := 7;
      } else {
        val := 15;
      }
      joyReport[5] := 16 * (joyReport[5] / 16) + val;
      SafeSendReport();
    }
  }
}
