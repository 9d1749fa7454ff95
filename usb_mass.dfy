// The mass-storage part: the USB Mass Storage Bulk-Only Transport state
// machine. A command block wrapper (CBW, section 5.1 of the Bulk-Only
// Transport 1.0 specification) arrives on the OUT endpoint, is checked and
// handed to a SCSI command handler; the command status wrapper (CSW,
// section 5.2) goes back on the IN endpoint. The SCSI handlers and the
// storage media are not part of this model: calling one is an event.
module UsbMass {
  import opened Prelude
  import opened UsbCore

  /** CBW and CSW signatures and sizes (sections 5.1 and 5.2 of Bulk-Only Transport). */
  const BOT_CBW_SIGNATURE: uint32 := 0x43425355
  const BOT_CSW_SIGNATURE: uint32 := 0x53425355
  const BOT_CBW_PACKET_LENGTH: nat := 31
  const BOT_CSW_DATA_LENGTH: nat := 13
  /** The bulk endpoints' buffer size: the longest packet the OUT endpoint delivers. */
  const MAX_BULK_PACKET_SIZE: nat := 64

  /** bCSWStatus values (table 5.3 of Bulk-Only Transport). */
  const BOT_CSW_CMD_PASSED: byte := 0
  const BOT_CSW_CMD_FAILED: byte := 1
  const BOT_CSW_PHASE_ERROR: byte := 2

  /** Class requests (sections 3.1 and 3.2 of Bulk-Only Transport). */
  const REQUEST_MASS_STORAGE_RESET: byte := 0xFF
  const REQUEST_GET_MAX_LUN: byte := 0xFE

  /** SCSI operation codes (SPC-4 and SBC-3). */
  const SCSI_TEST_UNIT_READY: byte := 0x00
  const SCSI_REQUEST_SENSE: byte := 0x03
  const SCSI_FORMAT_UNIT: byte := 0x04
  const SCSI_READ6: byte := 0x08
  const SCSI_WRITE6: byte := 0x0A
  const SCSI_INQUIRY: byte := 0x12
  const SCSI_MODE_SELECT6: byte := 0x15
  const SCSI_MODE_SENSE6: byte := 0x1A
  const SCSI_START_STOP_UNIT: byte := 0x1B
  const SCSI_SEND_DIAGNOSTIC: byte := 0x1D
  const SCSI_ALLOW_MEDIUM_REMOVAL: byte := 0x1E
  const SCSI_READ_FORMAT_CAPACITIES: byte := 0x23
  const SCSI_READ_CAPACITY10: byte := 0x25
  const SCSI_READ10: byte := 0x28
  const SCSI_WRITE10: byte := 0x2A
  const SCSI_VERIFY10: byte := 0x2F
  const SCSI_MODE_SELECT10: byte := 0x55
  const SCSI_MODE_SENSE10: byte := 0x5A
  const SCSI_READ16: byte := 0x88
  const SCSI_WRITE16: byte := 0x8A
  const SCSI_VERIFY16: byte := 0x8F
  const SCSI_READ_CAPACITY16: byte := 0x9E
  const SCSI_READ12: byte := 0xA8
  const SCSI_WRITE12: byte := 0xAA
  const SCSI_VERIFY12: byte := 0xAF

  /** Sense key and additional sense codes (SPC-4). */
  const SCSI_ILLEGAL_REQUEST: byte := 0x05
  const SCSI_PARAMETER_LIST_LENGTH_ERROR: byte := 0x1A
  const SCSI_INVALID_COMMAND: byte := 0x20
  const SCSI_INVALID_FIELED_IN_COMMAND: byte := 0x24

  datatype BotState = Idle | DataOut | DataIn | DataInLast | CswSend | BotError
  datatype DeviceState = Unconnected | Attached | Configured
  datatype Direction = DirIn | DirOut | DirBoth

  /** The SCSI command handlers a valid CBW is dispatched to. */
  datatype Handler = RequestSense | Inquiry | StartStopUnit | ModeSense6 | ModeSense10
    | ReadFormatCapacity | ReadCapacity10 | TestUnitReady | Read10 | Write10 | Verify10
    | Format | InvalidCmd

  /**
   * What the state machine does to the outside: endpoint status changes,
   * sense data and packets handed to the IN endpoint, handler calls.
   */
  datatype Event = StallTx | StallRx | ValidTx | ValidRx | ClearTxToggle | ClearRxToggle
    | MediaInit(lun: byte)
    | Sense(lun: byte, key: byte, code: byte)
    | Sent(bytes: seq<byte>)
    | Scsi(handler: Handler, lun: byte)
    | ScsiTransfer(handler: Handler, lun: byte, lba: uint32, blocks: uint32)

  /** The command status wrapper. */
  datatype Csw = Csw(signature: uint32, tag: uint32, residue: uint32, status: byte)

  /** The CSW as it goes on the wire: three little-endian words and the status byte. */
  function CswBytes(c: Csw): (b: seq<byte>)
    ensures |b| == BOT_CSW_DATA_LENGTH
  {
    LE32Bytes(c.signature) + LE32Bytes(c.tag) + LE32Bytes(c.residue) + [c.status]
  }

  /** Reading a CSW back from its 13 bytes. */
  function ParseCsw(b: seq<byte>): Csw
    requires |b| == BOT_CSW_DATA_LENGTH
  {
    Csw(LE32(b[0..4], 0), LE32(b[4..8], 0), LE32(b[8..12], 0), b[12])
  }

  /** A CSW is read back from its bytes unchanged. */
  lemma CswRoundTrip(c: Csw)
    ensures ParseCsw(CswBytes(c)) == c
  {
    var b := CswBytes(c);
    assert b[0..4] == LE32Bytes(c.signature);
    assert b[4..8] == LE32Bytes(c.tag);
    assert b[8..12] == LE32Bytes(c.residue);
  }

  /** The fields of a raw CBW (section 5.1 of Bulk-Only Transport). */
  function CbwSignature(c: seq<byte>): uint32 requires |c| == BOT_CBW_PACKET_LENGTH { LE32(c, 0) }
  function CbwTag(c: seq<byte>): uint32 requires |c| == BOT_CBW_PACKET_LENGTH { LE32(c, 4) }
  function CbwDataLength(c: seq<byte>): uint32 requires |c| == BOT_CBW_PACKET_LENGTH { LE32(c, 8) }
  function CbwLun(c: seq<byte>): byte requires |c| == BOT_CBW_PACKET_LENGTH { c[13] }
  function CbwCbLength(c: seq<byte>): byte requires |c| == BOT_CBW_PACKET_LENGTH { c[14] }
  /** CB[0], the SCSI operation code. */
  function CbwOpcode(c: seq<byte>): byte requires |c| == BOT_CBW_PACKET_LENGTH { c[15] }
  /** READ(10)/WRITE(10): big-endian logical block address in CB[2..5], block count in CB[7..8]. */
  function CbwLba(c: seq<byte>): uint32 requires |c| == BOT_CBW_PACKET_LENGTH { BE32(c, 17) }
  function CbwBlocks(c: seq<byte>): uint32 requires |c| == BOT_CBW_PACKET_LENGTH { BE16(c, 22) }

  function IsTransfer(op: byte): bool { op == SCSI_READ10 || op == SCSI_WRITE10 }

  /** The handler `cbw_decode` calls for an operation code; None is its default branch. */
  function HandlerFor(op: byte): (h: Option<Handler>)
    ensures h == Some(Read10) <==> op == SCSI_READ10
    ensures h == Some(Write10) <==> op == SCSI_WRITE10
    ensures op == SCSI_ALLOW_MEDIUM_REMOVAL ==> h == Some(StartStopUnit)
  {
    if op == SCSI_REQUEST_SENSE then Some(RequestSense)
    else if op == SCSI_INQUIRY then Some(Inquiry)
    else if op == SCSI_START_STOP_UNIT || op == SCSI_ALLOW_MEDIUM_REMOVAL then Some(StartStopUnit)
    else if op == SCSI_MODE_SENSE6 then Some(ModeSense6)
    else if op == SCSI_MODE_SENSE10 then Some(ModeSense10)
    else if op == SCSI_READ_FORMAT_CAPACITIES then Some(ReadFormatCapacity)
    else if op == SCSI_READ_CAPACITY10 then Some(ReadCapacity10)
    else if op == SCSI_TEST_UNIT_READY then Some(TestUnitReady)
    else if op == SCSI_READ10 then Some(Read10)
    else if op == SCSI_WRITE10 then Some(Write10)
    else if op == SCSI_VERIFY10 then Some(Verify10)
    else if op == SCSI_FORMAT_UNIT then Some(Format)
    else if op in {SCSI_MODE_SELECT10, SCSI_MODE_SELECT6, SCSI_SEND_DIAGNOSTIC, SCSI_READ6, SCSI_READ12,
                   SCSI_READ16, SCSI_READ_CAPACITY16, SCSI_WRITE6, SCSI_WRITE12, SCSI_VERIFY12,
                   SCSI_VERIFY16, SCSI_WRITE16} then Some(InvalidCmd)
    else None
  }

  /** The event of calling a handler: the transfers also get the block address and count. */
  function HandlerEvent(h: Handler, lun: byte, lba: uint32, blocks: uint32): Event
  {
    if h == Read10 || h == Write10 then ScsiTransfer(h, lun, lba, blocks) else Scsi(h, lun)
  }

  /** The checks `cbw_decode` makes of a CBW of the right length. */
  datatype Verdict = BadField | BadCommand | Run(h: Handler)

  function Check(c: seq<byte>, maxLun: uint32): Verdict
    requires |c| == BOT_CBW_PACKET_LENGTH
  {
    if CbwSignature(c) != BOT_CBW_SIGNATURE then BadCommand
    else if CbwLun(c) > maxLun || CbwCbLength(c) < 1 || CbwCbLength(c) > 16 then BadField
    else match HandlerFor(CbwOpcode(c))
      case None => BadCommand
      case Some(h) => Run(h)
  }

  /** A CBW that is handed to a SCSI handler: meaningful (section 6.2 of Bulk-Only Transport) and known. */
  predicate Accepted(c: seq<byte>, length: nat, maxLun: uint32)
    requires |c| == BOT_CBW_PACKET_LENGTH
  {
    length == BOT_CBW_PACKET_LENGTH && CbwSignature(c) == BOT_CBW_SIGNATURE
    && CbwLun(c) <= maxLun && 1 <= CbwCbLength(c) <= 16 && HandlerFor(CbwOpcode(c)).Some?
  }

  /** The software state of the Bulk-Only Transport. */
  datatype Snapshot = Snapshot(
    cbw: seq<byte>, packet: seq<byte>, csw: Csw, botState: BotState, deviceState: DeviceState,
    maxLun: uint32, lba: uint32, blocks: uint32, inPending: bool, outPending: bool, events: seq<Event>)

  ghost predicate Wf(s: Snapshot)
  {
    |s.cbw| == BOT_CBW_PACKET_LENGTH && |s.packet| <= MAX_BULK_PACKET_SIZE
  }

  /** The CBW after the packet is copied over its first bytes, never past its end. */
  function Copied(c: seq<byte>, packet: seq<byte>): (r: seq<byte>)
    requires |c| == BOT_CBW_PACKET_LENGTH
    ensures |r| == BOT_CBW_PACKET_LENGTH
  {
    var n := Min(|packet|, BOT_CBW_PACKET_LENGTH);
    packet[..n] + c[n..]
  }

  /** A packet of exactly CBW size becomes the CBW. */
  lemma CopiedWhole(c: seq<byte>, packet: seq<byte>)
    requires |c| == |packet| == BOT_CBW_PACKET_LENGTH
    ensures Copied(c, packet) == packet
  {
    assert packet[..BOT_CBW_PACKET_LENGTH] == packet;
  }

  /** The CBW with a new signature. */
  function WithSignature(c: seq<byte>, sig: uint32): (r: seq<byte>)
    requires |c| == BOT_CBW_PACKET_LENGTH
    ensures |r| == BOT_CBW_PACKET_LENGTH && CbwSignature(r) == sig && r[4..] == c[4..]
  {
    LE32Bytes(sig) + c[4..]
  }

  /** `usb_mass_bot_abort`: stall the endpoints of the direction. */
  function AbortSpec(s: Snapshot, dir: Direction): Snapshot
  {
    s.(events := s.events + match dir
      case DirIn => [StallTx]
      case DirOut => [StallRx]
      case DirBoth => [StallTx, StallRx])
  }

  /** `usb_mass_bot_set_csw`: the CSW gets its signature and status and is handed to the IN endpoint. */
  function SetCswSpec(s: Snapshot, status: byte, permit: bool): (r: Snapshot)
  {
    var csw := s.csw.(signature := BOT_CSW_SIGNATURE, status := status);
    s.(csw := csw,
       events := s.events + [Sent(CswBytes(csw))] + (if permit then [ValidTx] else []),
       botState := if permit then CswSend else BotError)
  }

  /** The CSW is sent (the IN endpoint made valid) exactly when permitted; otherwise the machine is in error. */
  lemma SetCswState(s: Snapshot, status: byte, permit: bool)
    ensures var r := SetCswSpec(s, status, permit);
      r.csw.signature == BOT_CSW_SIGNATURE && r.csw.status == status
      && r.csw.tag == s.csw.tag && r.csw.residue == s.csw.residue
      && (r.botState == CswSend <==> permit) && (r.botState == BotError <==> !permit)
      && ParseCsw(r.events[|s.events|].bytes) == r.csw
  {
    CswRoundTrip(SetCswSpec(s, status, permit).csw);
  }

  function SenseSpec(s: Snapshot, lun: byte, code: byte): Snapshot
  {
    s.(events := s.events + [Sense(lun, SCSI_ILLEGAL_REQUEST, code)])
  }

  /** A rejected CBW: both endpoints stalled, sense data set, a failed CSW left unsent. */
  function FailSpec(s: Snapshot, lun: byte, code: byte): Snapshot
  {
    SetCswSpec(SenseSpec(AbortSpec(s, DirBoth), lun, code), BOT_CSW_CMD_FAILED, false)
  }

  /** A phase error: the endpoints stalled, sense data set, a phase-error CSW left unsent. */
  function PhaseSpec(s: Snapshot, dir: Direction, lun: byte): Snapshot
  {
    SetCswSpec(SenseSpec(AbortSpec(s, dir), lun, SCSI_INVALID_FIELED_IN_COMMAND), BOT_CSW_PHASE_ERROR, false)
  }

  /** What a rejection does, spelled out. */
  lemma FailShape(s: Snapshot, lun: byte, code: byte)
    ensures var r := FailSpec(s, lun, code);
      r == s.(csw := r.csw, botState := BotError, events := r.events)
      && r.csw == s.csw.(signature := BOT_CSW_SIGNATURE, status := BOT_CSW_CMD_FAILED)
      && r.events == s.events + [StallTx, StallRx, Sense(lun, SCSI_ILLEGAL_REQUEST, code), Sent(CswBytes(r.csw))]
  {
  }

  /** The first half of `usb_mass_bot_cbw_decode`: the packet copied into the CBW, the CSW's tag and residue taken from it. */
  function ReceiveSpec(s: Snapshot): (r: Snapshot)
    requires Wf(s)
    ensures Wf(r)
  {
    var c := Copied(s.cbw, s.packet);
    s.(cbw := c, csw := s.csw.(tag := CbwTag(c), residue := CbwDataLength(c)))
  }

  /** The block address and count of READ(10) and WRITE(10), kept for the handlers. */
  function LoadTransferSpec(s: Snapshot): (r: Snapshot)
    requires Wf(s)
    ensures Wf(r)
  {
    if IsTransfer(CbwOpcode(s.cbw)) then s.(lba := CbwLba(s.cbw), blocks := CbwBlocks(s.cbw)) else s
  }

  /** The checks of a CBW of the right length and the call of its handler. */
  function DispatchSpec(s: Snapshot): Snapshot
    requires Wf(s)
  {
    var c := s.cbw;
    match Check(c, s.maxLun)
    case BadField => FailSpec(s, CbwLun(c), SCSI_INVALID_FIELED_IN_COMMAND)
    case BadCommand => FailSpec(s, CbwLun(c), SCSI_INVALID_COMMAND)
    case Run(h) => s.(events := s.events + [HandlerEvent(h, CbwLun(c), s.lba, s.blocks)])
  }

  /** The second half of `usb_mass_bot_cbw_decode`, on the received CBW. */
  function JudgeSpec(s: Snapshot): Snapshot
    requires Wf(s)
  {
    if |s.packet| != BOT_CBW_PACKET_LENGTH then
      FailSpec(s.(cbw := WithSignature(s.cbw, 0)), CbwLun(s.cbw), SCSI_PARAMETER_LIST_LENGTH_ERROR)
    else DispatchSpec(LoadTransferSpec(s))
  }

  /** `usb_mass_bot_cbw_decode`. */
  function DecodeSpec(s: Snapshot): Snapshot
    requires Wf(s)
  {
    JudgeSpec(ReceiveSpec(s))
  }

  /** The CSW echoes the CBW's tag and starts its residue at the CBW's transfer length. */
  lemma DecodeEchoes(s: Snapshot)
    requires Wf(s)
    ensures var c := Copied(s.cbw, s.packet);
      DecodeSpec(s).csw.tag == CbwTag(c) && DecodeSpec(s).csw.residue == CbwDataLength(c)
  {
    if |s.packet| != BOT_CBW_PACKET_LENGTH {
      DecodeWrongLength(s);
    } else {
      var s2 := LoadTransferSpec(ReceiveSpec(s));
      assert DecodeSpec(s) == DispatchSpec(s2);
      DispatchKeepsTag(s2);
    }
  }

  /** The checks and the handler call leave the CSW's tag and residue alone. */
  lemma DispatchKeepsTag(s: Snapshot)
    requires Wf(s)
    ensures DispatchSpec(s).csw.tag == s.csw.tag && DispatchSpec(s).csw.residue == s.csw.residue
  {
    FailShape(s, CbwLun(s.cbw), SCSI_INVALID_FIELED_IN_COMMAND);
    FailShape(s, CbwLun(s.cbw), SCSI_INVALID_COMMAND);
  }

  /**
   * A packet that is not 31 bytes long stalls both endpoints, clears the
   * CBW signature (so that only a reset brings the endpoints back) and
   * leaves a failed CSW unsent.
   */
  lemma DecodeWrongLength(s: Snapshot)
    requires Wf(s) && |s.packet| != BOT_CBW_PACKET_LENGTH
    ensures var r := DecodeSpec(s);
      var c := Copied(s.cbw, s.packet);
      CbwSignature(r.cbw) == 0 && r.botState == BotError
      && r.csw == Csw(BOT_CSW_SIGNATURE, CbwTag(c), CbwDataLength(c), BOT_CSW_CMD_FAILED)
      && r.events == s.events + [StallTx, StallRx, Sense(CbwLun(c), SCSI_ILLEGAL_REQUEST, SCSI_PARAMETER_LIST_LENGTH_ERROR), Sent(CswBytes(r.csw))]
  {
    var s1 := ReceiveSpec(s);
    FailShape(s1.(cbw := WithSignature(s1.cbw, 0)), CbwLun(s1.cbw), SCSI_PARAMETER_LIST_LENGTH_ERROR);
  }

  /** READ(10) and WRITE(10) take their block address and count from the command block, big-endian. */
  lemma DecodeTransferFields(s: Snapshot)
    requires Wf(s) && |s.packet| == BOT_CBW_PACKET_LENGTH
    ensures var r := DecodeSpec(s);
      var c := s.packet;
      IsTransfer(CbwOpcode(c)) ==> r.lba == BE32(c, 17) && r.blocks == BE16(c, 22)
    ensures var r := DecodeSpec(s);
      !IsTransfer(CbwOpcode(s.packet)) ==> r.lba == s.lba && r.blocks == s.blocks
  {
    CopiedWhole(s.cbw, s.packet);
    var s2 := LoadTransferSpec(ReceiveSpec(s));
    FailShape(s2, CbwLun(s2.cbw), SCSI_INVALID_FIELED_IN_COMMAND);
    FailShape(s2, CbwLun(s2.cbw), SCSI_INVALID_COMMAND);
  }

  /**
   * A CBW of the right length is handed to its handler, with the state
   * unchanged but for the CSW's tag and residue, exactly when it is
   * accepted.
   */
  lemma DecodeAccepted(s: Snapshot)
    requires Wf(s) && |s.packet| == BOT_CBW_PACKET_LENGTH
    ensures var r := DecodeSpec(s);
      var c := Copied(s.cbw, s.packet);
      Accepted(c, |s.packet|, s.maxLun) ==>
        r.events == s.events + [HandlerEvent(HandlerFor(CbwOpcode(c)).value, CbwLun(c), r.lba, r.blocks)]
        && r.csw.status == s.csw.status && r.csw.signature == s.csw.signature && r.botState == s.botState
  {
    CopiedWhole(s.cbw, s.packet);
    var s2 := LoadTransferSpec(ReceiveSpec(s));
    assert DecodeSpec(s) == DispatchSpec(s2);
  }

  /**
   * A rejected CBW of the right length gets the invalid-field sense for a
   * bad LUN or command-block length under a valid signature, and the
   * invalid-command sense for a bad signature or an unknown command.
   */
  lemma DecodeRejected(s: Snapshot)
    requires Wf(s) && |s.packet| == BOT_CBW_PACKET_LENGTH
    requires !Accepted(Copied(s.cbw, s.packet), |s.packet|, s.maxLun)
    ensures var r := DecodeSpec(s);
      var c := Copied(s.cbw, s.packet);
      var code := if CbwSignature(c) == BOT_CBW_SIGNATURE && (CbwLun(c) > s.maxLun || CbwCbLength(c) < 1 || CbwCbLength(c) > 16)
        then SCSI_INVALID_FIELED_IN_COMMAND else SCSI_INVALID_COMMAND;
      r.events == s.events + [StallTx, StallRx, Sense(CbwLun(c), SCSI_ILLEGAL_REQUEST, code), Sent(CswBytes(r.csw))]
    ensures DecodeSpec(s).csw.status == BOT_CSW_CMD_FAILED && DecodeSpec(s).botState == BotError
  {
    var s2 := LoadTransferSpec(ReceiveSpec(s));
    FailShape(s2, CbwLun(s2.cbw), SCSI_INVALID_FIELED_IN_COMMAND);
    FailShape(s2, CbwLun(s2.cbw), SCSI_INVALID_COMMAND);
  }

  /** `usb_mass_transfer_data_request`: the data goes out, the residue shrinks by its length, the command passes. */
  function TransferSpec(s: Snapshot, data: seq<byte>): Snapshot
  {
    s.(events := s.events + [Sent(data), ValidTx], botState := DataInLast,
       csw := s.csw.(residue := U32(s.csw.residue - |data|), status := BOT_CSW_CMD_PASSED))
  }

  /** The residue is the transfer length less the data sent, modulo 2^32 as the `uint32` field wraps. */
  lemma TransferResidue(s: Snapshot, data: seq<byte>)
    requires |data| <= s.csw.residue
    ensures TransferSpec(s, data).csw.residue + |data| == s.csw.residue
  {
    U32Exact(s.csw.residue - |data|);
  }

  /** The IN-endpoint half of `usb_mass_loop`. */
  function InSpec(s: Snapshot): Snapshot
    requires Wf(s)
  {
    var s1 := s.(inPending := false);
    match s.botState
    case CswSend => s1.(botState := Idle, events := s1.events + [ValidRx])
    case BotError => s1.(botState := Idle, events := s1.events + [ValidRx])
    case DataIn =>
      if CbwOpcode(s.cbw) == SCSI_READ10 then s1.(events := s1.events + [ScsiTransfer(Read10, CbwLun(s.cbw), s.lba, s.blocks)])
      else s1
    case DataInLast =>
      var s2 := SetCswSpec(s1, BOT_CSW_CMD_PASSED, true);
      s2.(events := s2.events + [ValidRx])
    case _ => s1
  }

  /** The OUT-endpoint half of `usb_mass_loop`. */
  function OutSpec(s: Snapshot): Snapshot
    requires Wf(s)
  {
    var s1 := s.(outPending := false);
    match s.botState
    case Idle => DecodeSpec(s1)
    case DataOut =>
      if CbwOpcode(s.cbw) == SCSI_WRITE10 then s1.(events := s1.events + [ScsiTransfer(Write10, CbwLun(s.cbw), s.lba, s.blocks)])
      else PhaseSpec(s1, DirOut, CbwLun(s.cbw))
    case _ => PhaseSpec(s1, DirBoth, CbwLun(s.cbw))
  }

  /** `usb_mass_loop`: the pending IN event first, then the pending OUT event. */
  function LoopSpec(s: Snapshot): Snapshot
    requires Wf(s)
  {
    var s1 := if s.inPending then InSpec(s) else s;
    assert Wf(s1);
    if s1.outPending then OutSpec(s1) else s1
  }

  /** After the CSW is sent, or after an error, an IN event brings the machine back to idle. */
  lemma InEventToIdle(s: Snapshot)
    requires Wf(s) && (s.botState == CswSend || s.botState == BotError)
    ensures InSpec(s).botState == Idle && InSpec(s).events == s.events + [ValidRx] && !InSpec(s).inPending
  {
  }

  /** After the last data, an IN event sends a passed CSW. */
  lemma InEventAfterData(s: Snapshot)
    requires Wf(s) && s.botState == DataInLast
    ensures InSpec(s).botState == CswSend && InSpec(s).csw.status == BOT_CSW_CMD_PASSED
  {
  }

  /**
   * An OUT event is a new CBW when idle and the write data in the data-out
   * phase of WRITE(10); anywhere else it is a phase error with an unsent
   * CSW, stalling only the OUT endpoint in the data-out phase.
   */
  lemma OutEventPhase(s: Snapshot)
    requires Wf(s)
    ensures s.botState == Idle ==> OutSpec(s) == DecodeSpec(s.(outPending := false))
    ensures s.botState != Idle && !(s.botState == DataOut && CbwOpcode(s.cbw) == SCSI_WRITE10) ==>
      OutSpec(s).csw.status == BOT_CSW_PHASE_ERROR && OutSpec(s).botState == BotError
      && OutSpec(s).events[|s.events|] == (if s.botState == DataOut then StallRx else StallTx)
  {
  }

  /** `usb_mass_reset`: media initialised, device attached, signature restored, idle. */
  function ResetSpec(s: Snapshot): Snapshot
    requires Wf(s)
  {
    s.(events := s.events + [MediaInit(0)], deviceState := Attached,
       cbw := WithSignature(s.cbw, BOT_CBW_SIGNATURE), botState := Idle)
  }

  /** `usb_mass_set_configuration`: only a non-zero configuration configures the device. */
  function SetConfigurationSpec(s: Snapshot, configuration: byte): Snapshot
  {
    if configuration == 0 then s
    else s.(deviceState := Configured, events := s.events + [ClearTxToggle, ClearRxToggle], botState := Idle)
  }

  /** `usb_mass_clear_feature`: while the CBW signature is cleared the endpoints stay stalled. */
  function ClearFeatureSpec(s: Snapshot): Snapshot
    requires Wf(s)
  {
    if CbwSignature(s.cbw) != BOT_CBW_SIGNATURE then AbortSpec(s, DirBoth) else s
  }

  /** The Bulk-Only Mass Storage Reset request addressed to this interface (section 3.1 of Bulk-Only Transport). */
  predicate IsMassReset(requestType: byte, request: byte, wValue: uint16, wIndex: uint16, wLength: uint16, iface: byte)
  {
    requestType == CLASS_INTERFACE && request == REQUEST_MASS_STORAGE_RESET
    && wValue == 0 && wIndex == iface && wLength == 0
  }

  /** `usb_mass_no_data_setup`: the reset request re-arms the machine; everything else is not supported. */
  function NoDataSetupSpec(s: Snapshot, requestType: byte, request: byte, wValue: uint16, wIndex: uint16, wLength: uint16, iface: byte): (Snapshot, UsbResult)
    requires Wf(s)
  {
    if IsMassReset(requestType, request, wValue, wIndex, wLength, iface) then
      (s.(events := s.events + [ClearTxToggle, ClearRxToggle], cbw := WithSignature(s.cbw, BOT_CBW_SIGNATURE), botState := Idle), Success)
    else (s, Unsupport)
  }

  /** Only the exact reset request succeeds, and it leaves the machine idle with a valid CBW signature. */
  lemma NoDataSetupReset(s: Snapshot, requestType: byte, request: byte, wValue: uint16, wIndex: uint16, wLength: uint16, iface: byte)
    requires Wf(s)
    ensures var (r, res) := NoDataSetupSpec(s, requestType, request, wValue, wIndex, wLength, iface);
      (res == Success <==> IsMassReset(requestType, request, wValue, wIndex, wLength, iface))
      && (res == Success ==> r.botState == Idle && CbwSignature(r.cbw) == BOT_CBW_SIGNATURE)
      && (res != Success ==> r == s)
  {
  }

  /**
   * `usb_mass_data_setup`: Get Max LUN (section 3.2 of Bulk-Only
   * Transport) answers one byte, the low byte of `maxLun`; everything else
   * is not supported.
   */
  function DataSetup(maxLun: uint32, requestType: byte, request: byte, wValue: uint16, wIndex: uint16, wLength: uint16, iface: byte): (r: (UsbResult, seq<byte>))
    ensures r.0 == Success <==> requestType == CLASS_INTERFACE && request == REQUEST_GET_MAX_LUN && wValue == 0 && wIndex == iface && wLength == 1
    ensures r.0 == Success ==> r.1 == [maxLun % 0x100]
    ensures r.0 != Success ==> r.0 == Unsupport && r.1 == []
  {
    if requestType == CLASS_INTERFACE && request == REQUEST_GET_MAX_LUN && wValue == 0 && wIndex == iface && wLength == 1 then
      (Success, [maxLun % 0x100])
    else (Unsupport, [])
  }

  /**
   * The CBW copy loop of `cbw_decode` as written: it copies the whole
   * packet, up to the endpoint's 64 bytes, to the address of the 31-byte
   * CBW. `memory` is the CBW followed by whatever lies after it.
   */
  method CopyPacketAsWritten(memory: array<byte>, packet: seq<byte>)
    requires |packet| <= memory.Length
    modifies memory
    ensures memory[..] == packet + old(memory[|packet|..])
  {
    var counter := 0;
    while counter < |packet|
      invariant 0 <= counter <= |packet|
      invariant forall k | 0 <= k < counter :: memory[k] == packet[k]
      invariant forall k | counter <= k < memory.Length :: memory[k] == old(memory[k])
    {
      memory[counter] := packet[counter];
      counter := counter + 1;
    }
  }

  /** A packet longer than the CBW overwrites the memory after it. */
  lemma LongPacketOverwrites(memory: seq<byte>, packet: seq<byte>)
    requires BOT_CBW_PACKET_LENGTH < |packet| <= |memory| && packet[BOT_CBW_PACKET_LENGTH] != memory[BOT_CBW_PACKET_LENGTH]
    ensures (packet + memory[|packet|..])[BOT_CBW_PACKET_LENGTH..] != memory[BOT_CBW_PACKET_LENGTH..]
  {
    assert (packet + memory[|packet|..])[BOT_CBW_PACKET_LENGTH..][0] == packet[BOT_CBW_PACKET_LENGTH];
  }

  /**
   * The part's interface and two bulk endpoint descriptors as initialised
   * (sections 9.6.5 and 9.6.6 of USB 2.0): a SCSI transparent, Bulk-Only
   * interface and a 64-byte IN and OUT endpoint, both numbered 0.
   */
  const MASS_DESCRIPTOR: seq<byte> := [9, 4, 0, 0, 2, 8, 6, 0x50, 0,
                                       7, 5, 0x80, 2, MAX_BULK_PACKET_SIZE, 0, 0,
                                       7, 5, 0x00, 2, MAX_BULK_PACKET_SIZE, 0, 1]

  /**
   * `getMassPartDescriptor`: the template with the interface number moved
   * to the part's first interface and both endpoint addresses moved by its
   * first endpoint number, in 8-bit arithmetic.
   */
  function PartDescriptor(startInterface: byte, startEndpoint: byte): (r: seq<byte>)
    ensures |r| == |MASS_DESCRIPTOR| == 23
    ensures r[2] == startInterface && r[11] == U8(0x80 + startEndpoint) && r[18] == startEndpoint
    ensures forall k | 0 <= k < |r| && k != 2 && k != 11 && k != 18 :: r[k] == MASS_DESCRIPTOR[k]
  {
    MASS_DESCRIPTOR[2 := U8(MASS_DESCRIPTOR[2] + startInterface)]
                   [11 := U8(MASS_DESCRIPTOR[11] + startEndpoint)]
                   [18 := U8(MASS_DESCRIPTOR[18] + startEndpoint)]
  }

  class MassBot {
    /** The raw CBW struct, `BulkOnlyCBW`. */
    const cbw: array<byte>
    /** `bulkDataBuff[..dataLength]`: the last packet the OUT endpoint delivered. */
    var packet: seq<byte>
    var csw: Csw
    var botState: BotState
    var deviceState: DeviceState
    var maxLun: uint32
    /** `SCSI_lba` and `SCSI_blkLen`. */
    var lba: uint32
    var blocks: uint32
    var inPending: bool
    var outPending: bool
    var events: seq<Event>

    ghost predicate Valid()
      reads this
    {
      cbw.Length == BOT_CBW_PACKET_LENGTH && |packet| <= MAX_BULK_PACKET_SIZE
    }

    ghost function State(): (s: Snapshot)
      requires Valid()
      reads this, cbw
      ensures Wf(s)
    {
      Snapshot(cbw[..], packet, csw, botState, deviceState, maxLun, lba, blocks, inPending, outPending, events)
    }

    constructor()
      ensures Valid() && botState == Idle && deviceState == Unconnected && maxLun == 0
      ensures !inPending && !outPending && events == []
    {
      cbw := new byte[BOT_CBW_PACKET_LENGTH];
      packet := [];
      csw := Csw(0, 0, 0, 0);
      botState := Idle;
      deviceState := Unconnected;
      maxLun := 0;
      lba := 0;
      blocks := 0;
      inPending := false;
      outPending := false;
      events := [];
    }

    /** `usb_mass_in`: the IN endpoint finished a transfer. */
    method InCallback()
      requires Valid()
      modifies this
      ensures Valid() && State() == old(State()).(inPending := true)
    {
      inPending := true;
    }

    /** `usb_mass_out`: the OUT endpoint delivered a packet. */
    method OutCallback(p: seq<byte>)
      requires Valid() && |p| <= MAX_BULK_PACKET_SIZE
      modifies this
      ensures Valid() && State() == old(State()).(packet := p, outPending := true)
    {
      packet := p;
      outPending := true;
    }

    method Abort(dir: Direction)
      requires Valid()
      modifies this
      ensures Valid() && State() == AbortSpec(old(State()), dir)
    {
      match dir
      case DirIn => events := events + [StallTx];
      case DirOut => events := events + [StallRx];
      case DirBoth => events := events + [StallTx, StallRx];
    }

    method SetSense(lun: byte, code: byte)
      requires Valid()
      modifies this
      ensures Valid() && State() == SenseSpec(old(State()), lun, code)
    {
      events := events + [Sense(lun, SCSI_ILLEGAL_REQUEST, code)];
    }

    method SetCsw(status: byte, permit: bool)
      requires Valid()
      modifies this
      ensures Valid() && State() == SetCswSpec(old(State()), status, permit)
    {
      csw := csw.(signature := BOT_CSW_SIGNATURE, status := status);
      events := events + [Sent(CswBytes(csw))];
      botState := BotError;
      if permit {
        botState := CswSend;
        events := events + [ValidTx];
      }
    }

    method TransferDataRequest(data: seq<byte>)
      requires Valid() && |data| < 0x1_0000
      modifies this
      ensures Valid() && State() == TransferSpec(old(State()), data)
    {
      events := events + [Sent(data), ValidTx];
      botState := DataInLast;
      csw := csw.(residue := U32(csw.residue - |data|), status := BOT_CSW_CMD_PASSED);
    }

    /** The CBW copy loop, stopping at the CBW's end. */
    method CopyPacket()
      requires Valid()
      modifies cbw
      ensures cbw[..] == Copied(old(cbw[..]), packet)
    {
      var n := Min(|packet|, BOT_CBW_PACKET_LENGTH);
      var counter := 0;
      while counter < n
        invariant 0 <= counter <= n
        invariant forall k | 0 <= k < counter :: cbw[k] == packet[k]
        invariant forall k | counter <= k < cbw.Length :: cbw[k] == old(cbw[k])
      {
        cbw[counter] := packet[counter];
        counter := counter + 1;
      }
    }

    method WriteSignature(sig: uint32)
      requires Valid()
      modifies cbw
      ensures cbw[..] == WithSignature(old(cbw[..]), sig)
    {
      var b := LE32Bytes(sig);
      cbw[0], cbw[1], cbw[2], cbw[3] := b[0], b[1], b[2], b[3];
      assert cbw[..] == b + old(cbw[..])[4..];
    }

    method Fail(lun: byte, code: byte)
      requires Valid()
      modifies this
      ensures Valid() && State() == FailSpec(old(State()), lun, code)
    {
      Abort(DirBoth);
      SetSense(lun, code);
      SetCsw(BOT_CSW_CMD_FAILED, false);
    }

    method Receive()
      requires Valid()
      modifies this, cbw
      ensures Valid() && State() == ReceiveSpec(old(State()))
    {
      CopyPacket();
      var c := cbw[..];
      csw := csw.(tag := CbwTag(c), residue := CbwDataLength(c));
    }

    method Dispatch()
      requires Valid()
      modifies this
      ensures Valid() && State() == DispatchSpec(old(State()))
    {
      var c := cbw[..];
      match Check(c, maxLun)
      case BadField => Fail(CbwLun(c), SCSI_INVALID_FIELED_IN_COMMAND);
      case BadCommand => Fail(CbwLun(c), SCSI_INVALID_COMMAND);
      case Run(h) => events := events + [HandlerEvent(h, CbwLun(c), lba, blocks)];
    }

    method Decode()
      requires Valid()
      modifies this, cbw
      ensures Valid() && State() == DecodeSpec(old(State()))
    {
      Receive();
      var c := cbw[..];
      if |packet| != BOT_CBW_PACKET_LENGTH {
        Abort(DirBoth);
        WriteSignature(0);
        SetSense(CbwLun(c), SCSI_PARAMETER_LIST_LENGTH_ERROR);
        SetCsw(BOT_CSW_CMD_FAILED, false);
        return;
      }
      if IsTransfer(CbwOpcode(c)) {
        lba := CbwLba(c);
        blocks := CbwBlocks(c);
      }
      Dispatch();
    }

    method Phase(dir: Direction)
      requires Valid()
      modifies this
      ensures Valid() && State() == PhaseSpec(old(State()), dir, CbwLun(old(cbw[..])))
    {
      var lun := cbw[13];
      Abort(dir);
      SetSense(lun, SCSI_INVALID_FIELED_IN_COMMAND);
      SetCsw(BOT_CSW_PHASE_ERROR, false);
    }

    method InEvent()
      requires Valid()
      modifies this
      ensures Valid() && State() == InSpec(old(State()))
    {
      inPending := false;
      match botState
      case CswSend =>
        botState := Idle;
        events := events + [ValidRx];
      case BotError =>
        botState := Idle;
        events := events + [ValidRx];
      case DataIn =>
        if cbw[15] == SCSI_READ10 {
          events := events + [ScsiTransfer(Read10, cbw[13], lba, blocks)];
        }
      case DataInLast =>
        SetCsw(BOT_CSW_CMD_PASSED, true);
        events := events + [ValidRx];
      case _ =>
    }

    method OutEvent()
      requires Valid()
      modifies this, cbw
      ensures Valid() && State() == OutSpec(old(State()))
    {
      outPending := false;
      var cmd := cbw[15];
      match botState
      case Idle => Decode();
      case DataOut =>
        if cmd == SCSI_WRITE10 {
          events := events + [ScsiTransfer(Write10, cbw[13], lba, blocks)];
        } else {
          Phase(DirOut);
        }
      case _ => Phase(DirBoth);
    }

    /** `usb_mass_loop`. */
    method Loop()
      requires Valid()
      modifies this, cbw
      ensures Valid() && State() == LoopSpec(old(State()))
    {
      if inPending {
        InEvent();
      }
      if outPending {
        OutEvent();
      }
    }

    method Reset()
      requires Valid()
      modifies this, cbw
      ensures Valid() && State() == ResetSpec(old(State()))
    {
      events := events + [MediaInit(0)];
      deviceState := Attached;
      WriteSignature(BOT_CBW_SIGNATURE);
      botState := Idle;
    }

    method SetConfiguration(configuration: byte)
      requires Valid()
      modifies this
      ensures Valid() && State() == SetConfigurationSpec(old(State()), configuration)
    {
      if configuration != 0 {
        deviceState := Configured;
        events := events + [ClearTxToggle, ClearRxToggle];
        botState := Idle;
      }
    }

    method ClearFeature()
      requires Valid()
      modifies this
      ensures Valid() && State() == ClearFeatureSpec(old(State()))
    {
      if CbwSignature(cbw[..]) != BOT_CBW_SIGNATURE {
        Abort(DirBoth);
      }
    }

    method NoDataSetup(requestType: byte, request: byte, wValue: uint16, wIndex: uint16, wLength: uint16, iface: byte) returns (r: UsbResult)
      requires Valid()
      modifies this, cbw
      ensures Valid() && (State(), r) == NoDataSetupSpec(old(State()), requestType, request, wValue, wIndex, wLength, iface)
    {
      if IsMassReset(requestType, request, wValue, wIndex, wLength, iface) {
        events := events + [ClearTxToggle, ClearRxToggle];
        WriteSignature(BOT_CBW_SIGNATURE);
        botState := Idle;
        return Success;
      }
      return Unsupport;
    }
  }
}
