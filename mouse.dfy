// Button sets shared by the relative mouse and the digitizer, and the
// relative mouse itself, which hands its five-byte report straight to the
// HID transmit queue.
module Mouse {
  import opened Prelude
  import opened Bits
  import opened ByteRing

  const MOUSE_LEFT: byte := 1
  const MOUSE_RIGHT: byte := 2
  const MOUSE_MIDDLE: byte := 4
  const MOUSE_ALL: byte := 7
  const USB_HID_MOUSE_REPORT_ID: byte := 1

  // Button sets, as `press`, `release` and `isPressed` combine them.

  /** `buttons | b`: the buttons down before and those of `b`. */
  function WithPressed(buttons: byte, b: byte): (r: byte)
    ensures forall j: nat :: Bit(r, j) <==> Bit(buttons, j) || Bit(b, j)
  {
    Pow2Widths();
    OrWidth(buttons, b, 8);
    OrBits(buttons, b);
    Or(buttons, b)
  }

  /** `buttons & ~b`: the buttons down before that are not in `b`. */
  function WithReleased(buttons: byte, b: byte): (r: byte)
    ensures forall j: nat :: Bit(r, j) <==> Bit(buttons, j) && !Bit(b, j)
  {
    AndNotWidth(buttons, b);
    AndNotBits(buttons, b);
    AndNot(buttons, b)
  }

  /** `(b & buttons) > 0`: some button of `b` is down. */
  function IsPressed(buttons: byte, b: byte): (p: bool)
    ensures p <==> exists j: nat :: Bit(b, j) && Bit(buttons, j)
  {
    AndZero(b, buttons);
    And(b, buttons) > 0
  }

  /**
   * After `press(b)` with some button in `b` every button of `b` is down,
   * and a button that was down stays down.
   */
  lemma PressedIsPressed(buttons: byte, b: byte, c: byte)
    requires b != 0
    ensures IsPressed(WithPressed(buttons, b), b)
    ensures IsPressed(buttons, c) ==> IsPressed(WithPressed(buttons, b), c)
    ensures forall j: nat :: Bit(b, j) ==> Bit(WithPressed(buttons, b), j)
  {
    SomeBitExists(b);
    var j: nat :| Bit(b, j);
    OrBit(buttons, b, j);
    AndZero(b, Or(buttons, b));
    if IsPressed(buttons, c) {
      AndZero(c, buttons);
      var i: nat :| Bit(c, i) && Bit(buttons, i);
      OrBit(buttons, b, i);
      AndZero(c, Or(buttons, b));
    }
    forall i: nat | Bit(b, i)
      ensures Bit(WithPressed(buttons, b), i)
    {
      OrBit(buttons, b, i);
    }
  }

  /**
   * After `release(b)` no button of `b` is down, and a button set sharing
   * nothing with `b` reads as it did before.
   */
  lemma ReleasedIsNotPressed(buttons: byte, b: byte, c: byte)
    ensures !IsPressed(WithReleased(buttons, b), b)
    ensures And(b, c) == 0 ==> (IsPressed(WithReleased(buttons, b), c) <==> IsPressed(buttons, c))
  {
    var r := WithReleased(buttons, b);
    forall j: nat
      ensures !(Bit(b, j) && Bit(r, j))
    {
      AndNotBit(buttons, b, j);
    }
    AndZero(b, r);
    if And(b, c) == 0 {
      AndZero(b, c);
      forall j: nat
        ensures Bit(c, j) ==> (Bit(r, j) <==> Bit(buttons, j))
      {
        AndNotBit(buttons, b, j);
      }
      AndZero(c, r);
      AndZero(c, buttons);
    }
  }

  /** Releasing what was just pressed, when none of it was down, gives back the buttons. */
  lemma PressReleaseRestores(buttons: byte, b: byte)
    requires !IsPressed(buttons, b)
    ensures WithReleased(WithPressed(buttons, b), b) == buttons
  {
    AndZero(b, buttons);
    AndZero(buttons, b);
    ClearAfterSet(buttons, b);
  }

  // The relative mouse.

  /** What `move(x, y, wheel)` hands to `usb_hid_tx`: the ID, the buttons and the three `signed char`s as bytes. */
  function MoveReport(reportID: byte, buttons: byte, x: int8, y: int8, wheel: int8): (r: seq<byte>)
    ensures |r| == 5 && r[0] == reportID && r[1] == buttons
    ensures I8(r[2]) == x && I8(r[3]) == y && I8(r[4]) == wheel
  {
    [reportID, buttons, U8(x), U8(y), U8(wheel)]
  }

  /** A byte read back as a `signed char`. */
  function I8(b: byte): int8
  {
    if b < 0x80 then b else b - 0x100
  }

  /**
   * `HIDMouse`: the current buttons, the report ID and the HID transmit
   * queue `move` writes into.  `inFlight` says whether an IN transfer of
   * that queue is outstanding (`usbGenericTransmitting >= 0`), and `sent`
   * logs the bytes the endpoint took from the queue during the calls.  The
   * waits of `usb_hid_is_transmitting` between the calls are left to the
   * interrupt.
   */
  class HidMouse {
    var buttons: byte
    const reportID: byte
    const txq: Ring
    /** `txEPSize` of the HID transmit endpoint. */
    const epSize: nat
    var inFlight: bool
    var sent: seq<byte>

    ghost predicate Valid()
      reads this, txq
    {
      txq.Valid() && epSize >= 1
    }

    constructor (reportID: byte, txq: Ring, epSize: nat, inFlight: bool)
      requires txq.Valid() && epSize >= 1
      ensures Valid() && this.reportID == reportID && this.txq == txq && this.epSize == epSize
      ensures buttons == 0 && this.inFlight == inFlight && sent == []
    {
      this.reportID := reportID;
      this.txq := txq;
      this.epSize := epSize;
      this.inFlight := inFlight;
      buttons := 0;
      sent := [];
    }

    /**
     * `move(x, y, wheel)`: one `usb_hid_tx` of the five report bytes, of
     * which as many are queued as fit and handed on to the endpoint as
     * `Ring.Transmit` says, then the empty `usb_hid_tx(NULL, 0)`.
     */
    method Move(x: int8, y: int8, wheel: int8) returns (accepted: nat)
      requires Valid()
      modifies this, txq, txq.buf
      ensures Valid() && buttons == old(buttons)
      ensures accepted == Accepted(5, old(txq.Count())) && accepted <= 5
      ensures sent + txq.Contents() == old(sent) + old(txq.Contents()) + MoveReport(reportID, buttons, x, y, wheel)[..accepted]
      ensures old(sent) <= sent
      ensures accepted == 0 ==> sent == old(sent) && inFlight == old(inFlight)
      ensures accepted > 0 && !old(inFlight) ==> inFlight && |sent| - |old(sent)| == Min(epSize, old(txq.Count()) + accepted)
      ensures accepted > 0 && old(inFlight) ==> !inFlight && txq.Contents() == []
      ensures old(txq.Count()) == 0 && !old(inFlight) && epSize >= 5 ==>
        txq.Contents() == [] && sent == old(sent) + MoveReport(reportID, buttons, x, y, wheel)
    {
      accepted := Offer(MoveReport(reportID, buttons, x, y, wheel));
      var none, nothing;
      none, nothing, inFlight := txq.Transmit([], epSize, inFlight);
    }

    /** One `usb_hid_tx` of `report`, with what the endpoint takes logged in `sent`. */
    method Offer(report: seq<byte>) returns (accepted: nat)
      requires Valid() && |report| == 5
      modifies this, txq, txq.buf
      ensures Valid() && buttons == old(buttons)
      ensures accepted == Accepted(5, old(txq.Count()))
      ensures sent + txq.Contents() == old(sent) + old(txq.Contents()) + report[..accepted]
      ensures old(sent) <= sent
      ensures accepted == 0 ==> sent == old(sent) && inFlight == old(inFlight)
      ensures accepted > 0 && !old(inFlight) ==> inFlight && |sent| - |old(sent)| == Min(epSize, old(txq.Count()) + accepted)
      ensures accepted > 0 && old(inFlight) ==> !inFlight && txq.Contents() == []
      ensures old(txq.Count()) == 0 && !old(inFlight) && epSize >= 5 ==>
        txq.Contents() == [] && sent == old(sent) + report
    {
      ghost var s0 := sent;
      ghost var q0 := txq.Contents();
      var packet;
      accepted, packet, inFlight := txq.Transmit(report, epSize, inFlight);
      sent := sent + packet;
      assert sent + txq.Contents() == s0 + (packet + txq.Contents());
      if old(txq.Count()) == 0 && !old(inFlight) && epSize >= 5 {
        assert accepted == 5 && report[..accepted] == report && q0 == [];
        assert |packet| == 5 && |packet + txq.Contents()| == 5;
        assert txq.Contents() == [];
        assert sent + txq.Contents() == sent;
        assert s0 + q0 + report[..accepted] == s0 + report;
      }
    }

    /**
     * `buttons(b)`: a report with the new buttons, offered to `move`, only
     * when they change; `offered` is that report, or nothing.
     */
    method SetButtons(b: byte) returns (offered: seq<byte>, accepted: nat)
      requires Valid()
      modifies this, txq, txq.buf
      ensures Valid() && buttons == b
      ensures offered == if b == old(buttons) then [] else MoveReport(reportID, b, 0, 0, 0)
      ensures accepted == Accepted(|offered|, old(txq.Count()))
      ensures sent + txq.Contents() == old(sent) + old(txq.Contents()) + offered[..accepted]
      ensures b == old(buttons) ==> sent == old(sent) && inFlight == old(inFlight) && txq.Contents() == old(txq.Contents())
    {
      offered := [];
      accepted := 0;
      if b != buttons {
        buttons := b;
        offered := MoveReport(reportID, b, 0, 0, 0);
        accepted := Move(0, 0, 0);
      }
    }

    /** `press(b)`. */
    method Press(b: byte) returns (offered: seq<byte>, accepted: nat)
      requires Valid()
      modifies this, txq, txq.buf
      ensures Valid() && buttons == WithPressed(old(buttons), b)
      ensures offered == if buttons == old(buttons) then [] else MoveReport(reportID, buttons, 0, 0, 0)
      ensures accepted == Accepted(|offered|, old(txq.Count()))
      ensures sent + txq.Contents() == old(sent) + old(txq.Contents()) + offered[..accepted]
      ensures buttons == old(buttons) ==> sent == old(sent) && inFlight == old(inFlight) && txq.Contents() == old(txq.Contents())
    {
      offered, accepted := SetButtons(WithPressed(buttons, b));
    }

    /** `release(b)`. */
    method Release(b: byte) returns (offered: seq<byte>, accepted: nat)
      requires Valid()
      modifies this, txq, txq.buf
      ensures Valid() && buttons == WithReleased(old(buttons), b)
      ensures offered == if buttons == old(buttons) then [] else MoveReport(reportID, buttons, 0, 0, 0)
      ensures accepted == Accepted(|offered|, old(txq.Count()))
      ensures sent + txq.Contents() == old(sent) + old(txq.Contents()) + offered[..accepted]
      ensures buttons == old(buttons) ==> sent == old(sent) && inFlight == old(inFlight) && txq.Contents() == old(txq.Contents())
    {
      offered, accepted := SetButtons(WithReleased(buttons, b));
    }

    /** `isPressed(b)`. */
    method IsPressedNow(b: byte) returns (p: bool)
      requires Valid()
      ensures p == IsPressed(buttons, b)
    {
      p := And(b, buttons) > 0;
    }

    /**
     * `click(b)`: a report with the buttons `b`, then one with no buttons,
     * leaving the buttons at 0.
     */
    method Click(b: byte) returns (first: nat, second: nat)
      requires Valid()
      modifies this, txq, txq.buf
      ensures Valid() && buttons == 0 && first <= 5 && second <= 5
      ensures first == Accepted(5, old(txq.Count()))
      ensures sent + txq.Contents() == old(sent) + old(txq.Contents()) + MoveReport(reportID, b, 0, 0, 0)[..first] + MoveReport(reportID, 0, 0, 0, 0)[..second]
    {
      buttons := b;
      first := Move(0, 0, 0);
      buttons := 0;
      second := Move(0, 0, 0);
    }
  }
}
