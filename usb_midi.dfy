// The Arduino-style `USBMIDI` object: building and dispatching the 4-byte
// event packets of section 4 of the USB Device Class Definition for MIDI
// Devices 1.0, and the blocking packet writer and reader over the MIDI part.
module UsbMidi {
  import opened Prelude
  import opened MidiDevice

  type nibble = x: int | 0 <= x < 16

  // Status bytes, from the MIDI 1.0 Detailed Specification.
  const NOTE_OFF: byte := 0x80
  const NOTE_ON: byte := 0x90
  const AFTER_TOUCH: byte := 0xA0
  const CONTROL_CHANGE: byte := 0xB0
  const PROGRAM_CHANGE: byte := 0xC0
  const CHANNEL_PRESSURE: byte := 0xD0
  const PITCH_WHEEL: byte := 0xE0
  const MTC_QUARTER_FRAME: byte := 0xF1
  const SONG_POSITION_PTR: byte := 0xF2
  const SONG_SELECT: byte := 0xF3
  const TUNE_REQUEST: byte := 0xF6
  const CLOCK: byte := 0xF8
  const TICK: byte := 0xF9
  const START: byte := 0xFA
  const CONTINUE: byte := 0xFB
  const STOP: byte := 0xFC
  const ACTIVE_SENSE: byte := 0xFE
  const RESET: byte := 0xFF

  // Code index numbers, table 4-1 of USB MIDI 1.0.
  const CIN_2BYTE_SYS_COMMON: nibble := 0x2
  const CIN_3BYTE_SYS_COMMON: nibble := 0x3
  const CIN_NOTE_OFF: nibble := 0x8
  const CIN_NOTE_ON: nibble := 0x9
  const CIN_AFTER_TOUCH: nibble := 0xA
  const CIN_CONTROL_CHANGE: nibble := 0xB
  const CIN_PROGRAM_CHANGE: nibble := 0xC
  const CIN_CHANNEL_PRESSURE: nibble := 0xD
  const CIN_PITCH_WHEEL: nibble := 0xE
  const CIN_1BYTE: nibble := 0xF

  const DEFAULT_MIDI_CABLE: nibble := 0

  /** `MIDI_EVENT_PACKET_t`: code index in the low nibble of byte 0, cable number in the high nibble, then three MIDI bytes. */
  datatype Packet = Packet(cin: nibble, cable: nibble, midi0: byte, midi1: byte, midi2: byte)

  /** The packet's four bytes, `EVENT_t.b`. */
  function PacketBytes(p: Packet): (b: seq<byte>)
    ensures |b| == 4 && b[0] % 16 == p.cin && b[0] / 16 == p.cable
    ensures b[1] == p.midi0 && b[2] == p.midi1 && b[3] == p.midi2
  {
    [16 * p.cable + p.cin, p.midi0, p.midi1, p.midi2]
  }

  /** `EVENT_t.i`: the packet read as one little-endian word. */
  function ToWord(p: Packet): uint32
  {
    LE32(PacketBytes(p), 0)
  }

  /** The packet a received word holds. */
  function FromWord(w: uint32): Packet
  {
    var b := LE32Bytes(w);
    Packet(b[0] % 16, b[0] / 16, b[1], b[2], b[3])
  }

  /** A packet survives the trip through its word. */
  lemma FromToWord(p: Packet)
    ensures FromWord(ToWord(p)) == p
  {
    LE32BytesOf(PacketBytes(p));
  }

  /** A word survives the trip through its packet. */
  lemma ToFromWord(w: uint32)
    ensures ToWord(FromWord(w)) == w
  {
    var b := LE32Bytes(w);
    assert PacketBytes(FromWord(w)) == b;
  }

  /** What a handler of the `USBMidi` class is called with. */
  datatype Event =
    | NoteOff(channel: nibble, note: byte, velocity: byte)
    | NoteOn(channel: nibble, note: byte, velocity: byte)
    | VelocityChange(channel: nibble, note: byte, velocity: byte)
    | ControlChange(channel: nibble, controller: byte, value: byte)
    | ProgramChange(channel: nibble, program: byte)
    | AfterTouch(channel: nibble, velocity: byte)
    | PitchChange(pitch: uint16)
    | SongPosition(position: uint16)
    | SongSelect(song: byte)
    | TuneRequest | Sync | Start | Continue | Stop | ActiveSense | Reset

  /** `MIDIv1_VOICE_CHANNEL`: the low nibble of the status byte. */
  function VoiceChannel(status: byte): (c: nibble)
    ensures status == 16 * (status / 16) + c
  {
    status % 16
  }

  /**
   * `((uint16)hi) << 7 | (uint16)lo` on bytes: the low seven bits come from
   * `lo`, bit 7 is set by either byte and the rest is `hi >> 1`.
   */
  function Join7(hi: byte, lo: byte): (v: uint16)
    ensures lo < 0x80 ==> v == 0x80 * hi + lo
  {
    0x80 * hi + lo % 0x80 + (if lo >= 0x80 && hi % 2 == 0 then 0x80 else 0)
  }

  /**
   * `dispatchPacket`: the handler a packet selects, and its arguments;
   * `None` for MTC quarter frames, `MIDIv1_TICK`, unknown one-byte and
   * two-byte statuses, three-byte system messages other than the song
   * position, and the code indices the switch does not list.
   */
  function DispatchPacket(p: Packet): (e: Option<Event>)
    ensures p.cin == CIN_PITCH_WHEEL ==> e == Some(PitchChange(Join7(p.midi2, p.midi1)))
    ensures p.cin == CIN_3BYTE_SYS_COMMON ==> (e.Some? <==> p.midi0 == SONG_POSITION_PTR)
    ensures p.cin == CIN_2BYTE_SYS_COMMON ==> (e.Some? <==> p.midi0 == SONG_SELECT)
    ensures p.cin == CIN_1BYTE && (p.midi0 == TICK || p.midi0 < 0xF6) ==> e == None
    ensures p.cin < 2 || 4 <= p.cin < 8 ==> e == None
  {
    var ch := VoiceChannel(p.midi0);
    if p.cin == CIN_3BYTE_SYS_COMMON then
      if p.midi0 == SONG_POSITION_PTR then Some(SongPosition(Join7(p.midi2, p.midi1))) else None
    else if p.cin == CIN_2BYTE_SYS_COMMON then
      if p.midi0 == SONG_SELECT then Some(SongSelect(p.midi1)) else None
    else if p.cin == CIN_NOTE_OFF then Some(NoteOff(ch, p.midi1, p.midi2))
    else if p.cin == CIN_NOTE_ON then Some(NoteOn(ch, p.midi1, p.midi2))
    else if p.cin == CIN_AFTER_TOUCH then Some(VelocityChange(ch, p.midi1, p.midi2))
    else if p.cin == CIN_CONTROL_CHANGE then Some(ControlChange(ch, p.midi1, p.midi2))
    else if p.cin == CIN_PROGRAM_CHANGE then Some(ProgramChange(ch, p.midi1))
    else if p.cin == CIN_CHANNEL_PRESSURE then Some(AfterTouch(ch, p.midi1))
    else if p.cin == CIN_PITCH_WHEEL then Some(PitchChange(Join7(p.midi2, p.midi1)))
    else if p.cin == CIN_1BYTE then
      if p.midi0 == CLOCK then Some(Sync)
      else if p.midi0 == START then Some(Start)
      else if p.midi0 == CONTINUE then Some(Continue)
      else if p.midi0 == STOP then Some(Stop)
      else if p.midi0 == ACTIVE_SENSE then Some(ActiveSense)
      else if p.midi0 == RESET then Some(Reset)
      else if p.midi0 == TUNE_REQUEST then Some(TuneRequest)
      else None
    else None
  }

  /** `dispatchPacket` on the received word: the word is handled as the packet it was sent as. */
  function Dispatch(w: uint32): (e: Option<Event>)
    ensures forall p :: ToWord(p) == w ==> e == DispatchPacket(p)
  {
    assert forall p :: ToWord(p) == w ==> FromWord(w) == p by {
      forall p | ToWord(p) == w
        ensures FromWord(w) == p
      {
        FromToWord(p);
      }
    }
    DispatchPacket(FromWord(w))
  }

  /** The handler calls `poll` makes for a run of received words, in order. */
  function DispatchAll(ws: seq<uint32>): (es: seq<Event>)
    ensures |es| <= |ws|
  {
    if ws == [] then []
    else
      var rest := DispatchAll(ws[1..]);
      match Dispatch(ws[0])
      case Some(e) => [e] + rest
      case None => rest
  }

  /** A channel-voice status byte: `status | (channel & 0x0F)`. */
  function VoiceStatus(status: byte, channel: uint32): (s: byte)
    requires status % 16 == 0 && status < 0xF0
    ensures s / 16 == status / 16 && VoiceChannel(s) == channel % 16
  {
    status + channel % 16
  }

  /** The three-byte channel-voice packets: every field is written. */
  function VoicePacket(cin: nibble, status: byte, channel: uint32, data1: uint32, data2: uint32): (p: Packet)
    requires status % 16 == 0 && status < 0xF0
    ensures p.cable == DEFAULT_MIDI_CABLE && p.cin == cin && VoiceChannel(p.midi0) == channel % 16
    ensures p.midi1 == data1 % 0x100 && p.midi2 == data2 % 0x100
  {
    Packet(cin, DEFAULT_MIDI_CABLE, VoiceStatus(status, channel), U8(data1), U8(data2))
  }

  /** `sendNoteOff`, `sendNoteOn`, `sendVelocityChange` and `sendControlChange` are dispatched back to the matching handler with the channel's low nibble and the data bytes as `uint8` keeps them. */
  lemma VoiceRoundTrip(channel: uint32, data1: uint32, data2: uint32)
    ensures Dispatch(ToWord(VoicePacket(CIN_NOTE_OFF, NOTE_OFF, channel, data1, data2))) == Some(NoteOff(channel % 16, U8(data1), U8(data2)))
    ensures Dispatch(ToWord(VoicePacket(CIN_NOTE_ON, NOTE_ON, channel, data1, data2))) == Some(NoteOn(channel % 16, U8(data1), U8(data2)))
    ensures Dispatch(ToWord(VoicePacket(CIN_AFTER_TOUCH, AFTER_TOUCH, channel, data1, data2))) == Some(VelocityChange(channel % 16, U8(data1), U8(data2)))
    ensures Dispatch(ToWord(VoicePacket(CIN_CONTROL_CHANGE, CONTROL_CHANGE, channel, data1, data2))) == Some(ControlChange(channel % 16, U8(data1), U8(data2)))
  {
    FromToWord(VoicePacket(CIN_NOTE_OFF, NOTE_OFF, channel, data1, data2));
    FromToWord(VoicePacket(CIN_NOTE_ON, NOTE_ON, channel, data1, data2));
    FromToWord(VoicePacket(CIN_AFTER_TOUCH, AFTER_TOUCH, channel, data1, data2));
    FromToWord(VoicePacket(CIN_CONTROL_CHANGE, CONTROL_CHANGE, channel, data1, data2));
  }

  /** `sendProgramChange` and `sendAfterTouch`: `midi2` keeps what the previous send left. */
  function TwoBytePacket(prev: Packet, cin: nibble, status: byte, channel: uint32, data1: uint32): (p: Packet)
    requires status % 16 == 0 && status < 0xF0
    ensures p.cable == DEFAULT_MIDI_CABLE && p.cin == cin && p.midi1 == data1 % 0x100 && p.midi2 == prev.midi2
  {
    prev.(cable := DEFAULT_MIDI_CABLE, cin := cin, midi0 := VoiceStatus(status, channel), midi1 := U8(data1))
  }

  lemma TwoByteRoundTrip(prev: Packet, channel: uint32, data1: uint32)
    ensures Dispatch(ToWord(TwoBytePacket(prev, CIN_PROGRAM_CHANGE, PROGRAM_CHANGE, channel, data1))) == Some(ProgramChange(channel % 16, U8(data1)))
    ensures Dispatch(ToWord(TwoBytePacket(prev, CIN_CHANNEL_PRESSURE, CHANNEL_PRESSURE, channel, data1))) == Some(AfterTouch(channel % 16, U8(data1)))
  {
    FromToWord(TwoBytePacket(prev, CIN_PROGRAM_CHANGE, PROGRAM_CHANGE, channel, data1));
    FromToWord(TwoBytePacket(prev, CIN_CHANNEL_PRESSURE, CHANNEL_PRESSURE, channel, data1));
  }

  /** `sendPitchChange` and `sendSongPosition`: the low seven bits in `midi1`, the next seven in `midi2`. */
  function FourteenBitPacket(cin: nibble, status: byte, value: uint32): (p: Packet)
    ensures p.cin == cin && p.cable == DEFAULT_MIDI_CABLE && p.midi0 == status
    ensures p.midi1 < 0x80 && p.midi2 < 0x80
  {
    Packet(cin, DEFAULT_MIDI_CABLE, status, value % 0x100 % 0x80, value / 0x80 % 0x100 % 0x80)
  }

  /** The two seven-bit halves put back together give the value's low fourteen bits. */
  lemma FourteenBitHalves(cin: nibble, status: byte, value: uint32)
    ensures var p := FourteenBitPacket(cin, status, value); 0x80 * p.midi2 + p.midi1 == value % 0x4000
  {
    var q := value / 0x80;
    var r := value % 0x80;
    LowBitsOfLowByte(value);
    LowBitsOfLowByte(q);
    var m := q % 0x80;
    assert q == 0x80 * (q / 0x80) + m;
    assert value == 0x4000 * (q / 0x80) + (0x80 * m + r);
    DivModUnique(value, 0x4000, q / 0x80, 0x80 * m + r);
  }

  /** Masking the low byte to seven bits keeps the low seven bits. */
  lemma LowBitsOfLowByte(v: nat)
    ensures v % 0x100 % 0x80 == v % 0x80
  {
    var b := v % 0x100;
    assert v == 0x100 * (v / 0x100) + b;
    assert v == 0x80 * (2 * (v / 0x100) + b / 0x80) + b % 0x80;
    DivModUnique(v, 0x80, 2 * (v / 0x100) + b / 0x80, b % 0x80);
  }

  /** Pitch and song position round-trip through their packets below 16384, and lose only the higher bits above. */
  lemma FourteenBitRoundTrip(value: uint32)
    ensures Dispatch(ToWord(FourteenBitPacket(CIN_PITCH_WHEEL, PITCH_WHEEL, value))) == Some(PitchChange(value % 0x4000))
    ensures Dispatch(ToWord(FourteenBitPacket(CIN_3BYTE_SYS_COMMON, SONG_POSITION_PTR, value))) == Some(SongPosition(value % 0x4000))
  {
    FromToWord(FourteenBitPacket(CIN_PITCH_WHEEL, PITCH_WHEEL, value));
    FromToWord(FourteenBitPacket(CIN_3BYTE_SYS_COMMON, SONG_POSITION_PTR, value));
    FourteenBitHalves(CIN_PITCH_WHEEL, PITCH_WHEEL, value);
    FourteenBitHalves(CIN_3BYTE_SYS_COMMON, SONG_POSITION_PTR, value);
  }

  /** `sendSongSelect`: the song masked to seven bits; `midi2` is stale. */
  function SongSelectPacket(prev: Packet, song: uint32): (p: Packet)
    ensures p.midi1 == song % 0x80 && p.midi2 == prev.midi2
    ensures Dispatch(ToWord(p)) == Some(SongSelect(song % 0x80))
  {
    var p := prev.(cable := DEFAULT_MIDI_CABLE, cin := CIN_2BYTE_SYS_COMMON, midi0 := SONG_SELECT, midi1 := song % 0x100 % 0x80);
    LowBitsOfLowByte(song);
    FromToWord(p);
    p
  }

  /** The event a one-byte system message is meant to raise. */
  function SystemEvent(status: byte): (e: Option<Event>)
    ensures e.Some? <==> status in {TUNE_REQUEST, CLOCK, START, CONTINUE, STOP, ACTIVE_SENSE, RESET}
  {
    if status == TUNE_REQUEST then Some(TuneRequest)
    else if status == CLOCK then Some(Sync)
    else if status == START then Some(Start)
    else if status == CONTINUE then Some(Continue)
    else if status == STOP then Some(Stop)
    else if status == ACTIVE_SENSE then Some(ActiveSense)
    else if status == RESET then Some(Reset)
    else None
  }

  /** The one-byte senders: only the status is written, `midi1` and `midi2` are stale. */
  function OneBytePacket(prev: Packet, status: byte): (p: Packet)
    ensures p.midi0 == status && p.midi1 == prev.midi1 && p.midi2 == prev.midi2
    ensures Dispatch(ToWord(p)) == SystemEvent(status)
  {
    var p := prev.(cable := DEFAULT_MIDI_CABLE, cin := CIN_1BYTE, midi0 := status);
    FromToWord(p);
    p
  }

  /** The size of the last piece when `n` packets go out `k` at a time. */
  function LastChunk(n: nat, k: nat): (c: nat)
    requires k > 0
    ensures n > 0 ==> 0 < c <= k
    decreases n
  {
    if n <= k then n else LastChunk(n - k, k)
  }

  /** The last piece fills the endpoint exactly when the packets divide into whole pieces. */
  lemma {:induction false} LastChunkFull(n: nat, k: nat)
    requires n > 0 && k > 0
    ensures LastChunk(n, k) == k <==> n % k == 0
    decreases n
  {
    if n > k {
      LastChunkFull(n - k, k);
      var q := (n - k) / k;
      assert n - k == k * q + (n - k) % k;
      assert n == k * (q + 1) + (n - k) % k;
      DivModUnique(n, k, q + 1, (n - k) % k);
    } else if n < k {
      DivModUnique(n, k, 0, n);
    } else {
      DivModUnique(n, k, 1, 0);
    }
  }

  /**
   * The sending loop of `writePackets`: `usb_midi_tx` on what is left until
   * every packet is accepted, the IN-complete interrupt ending each
   * transmission the loop waits on; `last` is the final `sent`.
   */
  method SendAll(part: MidiPart, buf: seq<uint32>, len: uint32) returns (out: seq<uint32>, last: nat)
    requires part.Valid() && len <= |buf| && part.txEpSize >= 4
    modifies part
    ensures part.Valid() && part.rxOffset == old(part.rxOffset) && part.nUnread == old(part.nUnread)
    ensures len == 0 ==> last == 0 && out == [] && part.nUnsent == old(part.nUnsent) && part.transmitting == old(part.transmitting)
    ensures len > 0 ==> part.transmitting && part.nUnsent == last
    ensures len < 0x4000_0000 ==> out == buf[..len]
    ensures 0 < len < 0x4000_0000 ==> last == LastChunk(len, part.txEpSize / 4)
  {
    var k := part.txEpSize / 4;
    var txed: nat := 0;
    out := [];
    last := 0;
    while txed < len
      invariant part.Valid() && txed <= len && part.txEpSize / 4 == k
      invariant part.rxOffset == old(part.rxOffset) && part.nUnread == old(part.nUnread)
      invariant len == 0 ==> last == 0 && out == [] && part.nUnsent == old(part.nUnsent) && part.transmitting == old(part.transmitting)
      invariant txed > 0 && txed == len ==> part.transmitting && part.nUnsent == last
      invariant len < 0x4000_0000 ==> out == buf[..txed]
      invariant len < 0x4000_0000 && txed < len ==> LastChunk(len - txed, k) == LastChunk(len, k)
      invariant 0 < len < 0x4000_0000 && txed == len ==> last == LastChunk(len, k)
      decreases len - txed, if part.transmitting then 1 else 0
    {
      var r, chunk := part.Tx(buf[txed..], len - txed);
      last := r;
      if r == 0 {
        // The IN-complete interrupt ends the transmission the loop waits on.
        part.TxCallback();
      } else {
        if len < 0x4000_0000 {
          assert chunk == buf[txed..txed + r];
          assert buf[..txed + r] == buf[..txed] + buf[txed..txed + r];
        }
        out := out + chunk;
        txed := txed + r;
      }
    }
  }

  /**
   * `writePackets` as written: the flush compares the packet count `sent`
   * with the endpoint size in bytes, so it never happens.
   */
  method WritePacketsAsWritten(part: MidiPart, buf: array?<uint32>, len: uint32, connected: bool) returns (out: seq<uint32>, flushed: bool)
    requires part.Valid() && part.txEpSize >= 4 && (buf != null ==> len <= buf.Length)
    modifies part
    ensures part.Valid() && part.rxOffset == old(part.rxOffset) && part.nUnread == old(part.nUnread)
    ensures !connected || buf == null ==> out == [] && !flushed && unchanged(part)
    ensures connected && buf != null && len < 0x4000_0000 ==> out == buf[..len]
    ensures len < 0x4000_0000 ==> !flushed
  {
    if !connected || buf == null {
      return [], false;
    }
    var last;
    out, last := SendAll(part, buf[..], len);
    flushed := last == part.txEpSize;
    if flushed {
      if part.transmitting {
        part.TxCallback();
      }
      var _, _ := part.Tx([], 0);
    }
  }

  /**
   * `writePackets` with the flush it is meant to make: after a last packet
   * that fills the endpoint, wait for it to go and send a zero-length one.
   */
  method WritePackets(part: MidiPart, buf: array?<uint32>, len: uint32, connected: bool) returns (out: seq<uint32>, flushed: bool)
    requires part.Valid() && part.txEpSize >= 4 && (buf != null ==> len <= buf.Length)
    modifies part
    ensures part.Valid() && part.rxOffset == old(part.rxOffset) && part.nUnread == old(part.nUnread)
    ensures !connected || buf == null ==> out == [] && !flushed && unchanged(part)
    ensures connected && buf != null && len < 0x4000_0000 ==> out == buf[..len]
    ensures len < 0x4000_0000 ==>
      (flushed <==> connected && buf != null && len > 0 && part.txEpSize % 4 == 0 && len % (part.txEpSize / 4) == 0)
    ensures flushed ==> part.transmitting && part.nUnsent == 0
  {
    if !connected || buf == null {
      return [], false;
    }
    var last;
    out, last := SendAll(part, buf[..], len);
    flushed := 4 * last == part.txEpSize;
    if 0 < len < 0x4000_0000 {
      LastChunkFull(len, part.txEpSize / 4);
    }
    if flushed {
      if part.transmitting {
        part.TxCallback();
      }
      var _, _ := part.Tx([], 0);
    }
  }

  /**
   * `readPackets`: 0 for a null buffer; otherwise it waits until `len`
   * packets have been read. Each OUT packet the host sends while nothing is
   * unread carries the next packets of `stream`, as many as the receive
   * buffer holds; `consumed` is how many of them arrived.
   */
  method ReadPackets(part: MidiPart, buf: array?<uint32>, len: uint32, stream: seq<uint32>) returns (rxed: nat, consumed: nat)
    requires part.Valid() && part.rxBuffer.Length > 0
    requires buf != null ==> buf != part.rxBuffer && len <= buf.Length && len <= part.nUnread + |stream|
    modifies part, part.rxBuffer, buf
    ensures part.Valid() && part.nUnsent == old(part.nUnsent) && part.transmitting == old(part.transmitting)
    ensures buf == null ==> rxed == 0 && consumed == 0 && unchanged(part)
    ensures buf != null ==> rxed == len && consumed <= |stream|
    ensures buf != null ==> buf[..len] == (old(part.Unread()) + stream)[..len] && buf[len..] == old(buf[len..])
    ensures buf != null ==> part.Unread() + stream[consumed..] == (old(part.Unread()) + stream)[len..]
  {
    if buf == null {
      return 0, 0;
    }
    ghost var all := part.Unread() + stream;
    rxed := 0;
    consumed := 0;
    while rxed < len
      invariant part.Valid() && rxed <= len && consumed <= |stream|
      invariant part.nUnsent == old(part.nUnsent) && part.transmitting == old(part.transmitting)
      invariant buf[..rxed] == all[..rxed] && buf[len..] == old(buf[len..])
      invariant part.Unread() + stream[consumed..] == all[rxed..]
      decreases len - rxed
    {
      rxed, consumed := ReadStep(part, buf, rxed, len, stream, consumed, all);
    }
  }

  /**
   * One pass of the `readPackets` loop: when nothing is unread the host's
   * next OUT packet arrives, then `usb_midi_rx` takes what it can.
   */
  method ReadStep(part: MidiPart, buf: array<uint32>, at: nat, len: nat, stream: seq<uint32>, consumed: nat, ghost all: seq<uint32>)
    returns (at': nat, consumed': nat)
    requires part.Valid() && part.rxBuffer.Length > 0 && buf != part.rxBuffer
    requires at < len <= buf.Length && len <= |all| && consumed <= |stream|
    requires buf[..at] == all[..at] && part.Unread() + stream[consumed..] == all[at..]
    modifies part, part.rxBuffer, buf
    ensures part.Valid() && part.nUnsent == old(part.nUnsent) && part.transmitting == old(part.transmitting)
    ensures at < at' <= len && consumed' <= |stream|
    ensures buf[..at'] == all[..at'] && buf[len..] == old(buf[len..])
    ensures part.Unread() + stream[consumed'..] == all[at'..]
  {
    consumed' := consumed;
    if part.nUnread == 0 {
      var n := Min(part.rxBuffer.Length, |stream| - consumed);
      assert stream[consumed..] == stream[consumed..consumed + n] + stream[consumed + n..];
      part.RxCallback(stream[consumed..consumed + n]);
      consumed' := consumed + n;
    }
    ghost var u := part.Unread();
    var got := part.Rx(buf, at, len - at);
    ReadMore(u, stream[consumed'..], all, at, got, buf[..at + got]);
    at' := at + got;
  }

  /** What one `usb_midi_rx` adds to the packets already read. */
  lemma ReadMore(u: seq<uint32>, rest: seq<uint32>, all: seq<uint32>, at: nat, got: nat, read: seq<uint32>)
    requires at <= |all| && u + rest == all[at..] && got <= |u|
    requires |read| == at + got && read[..at] == all[..at] && read[at..] == u[..got]
    ensures read == all[..at + got] && u[got..] + rest == all[at + got..]
  {
    assert read == read[..at] + read[at..];
    assert all[..at + got] == all[..at] + all[at..][..got];
  }

  /** `readPacket`: blocks for one packet and returns it. */
  method ReadPacket(part: MidiPart, stream: seq<uint32>) returns (p: uint32, consumed: nat)
    requires part.Valid() && part.rxBuffer.Length > 0 && 1 <= part.nUnread + |stream|
    modifies part, part.rxBuffer
    ensures part.Valid() && part.nUnsent == old(part.nUnsent) && part.transmitting == old(part.transmitting)
    ensures p == (old(part.Unread()) + stream)[0] && consumed <= |stream|
    ensures part.Unread() + stream[consumed..] == (old(part.Unread()) + stream)[1..]
  {
    var cell := new uint32[1];
    var n;
    n, consumed := ReadPackets(part, cell, 1, stream);
    p := cell[0];
  }

  /** `poll`: every packet already received is read and dispatched, in order. */
  method Poll(part: MidiPart) returns (events: seq<Event>)
    requires part.Valid()
    modifies part
    ensures part.Valid() && part.nUnread == 0 && part.nUnsent == old(part.nUnsent) && part.transmitting == old(part.transmitting)
    ensures events == DispatchAll(old(part.Unread()))
  {
    var cell := new uint32[1];
    ghost var q := part.Unread();
    events := [];
    while part.DataAvailable() > 0
      invariant part.Valid() && part.nUnsent == old(part.nUnsent) && part.transmitting == old(part.transmitting)
      invariant events + DispatchAll(part.Unread()) == DispatchAll(q)
      decreases part.nUnread
    {
      ghost var u := part.Unread();
      var n := part.Rx(cell, 0, 1);
      assert cell[0..1] == u[..1];
      assert cell[0] == cell[0..1][0];
      var e := Dispatch(cell[0]);
      PollStep(events, u, q);
      if e.Some? {
        events := events + [e.value];
      }
    }
  }

  /** Dispatching one more word keeps the handled events a prefix of those of the whole run. */
  lemma PollStep(events: seq<Event>, u: seq<uint32>, q: seq<uint32>)
    requires |u| > 0 && events + DispatchAll(u) == DispatchAll(q)
    ensures Dispatch(u[0]).Some? ==> events + [Dispatch(u[0]).value] + DispatchAll(u[1..]) == DispatchAll(q)
    ensures Dispatch(u[0]).None? ==> events + DispatchAll(u[1..]) == DispatchAll(q)
  {
    if Dispatch(u[0]).Some? {
      assert events + [Dispatch(u[0]).value] + DispatchAll(u[1..]) == events + ([Dispatch(u[0]).value] + DispatchAll(u[1..]));
    }
  }

  /** `writePacket`: one word through `writePackets`. */
  method WritePacket(part: MidiPart, connected: bool, w: uint32) returns (sent: seq<uint32>)
    requires part.Valid() && part.txEpSize >= 4
    modifies part
    ensures part.Valid() && part.rxOffset == old(part.rxOffset) && part.nUnread == old(part.nUnread)
    ensures sent == if connected then [w] else []
    ensures !connected ==> unchanged(part)
  {
    var cell := new uint32[1][w];
    var flushed;
    sent, flushed := WritePackets(part, cell, 1, connected);
  }

  /** `pending`: the unsent count through the `uint8` result. */
  function PendingPackets(part: MidiPart): (n: byte)
    reads part
    ensures part.nUnsent < 0x100 ==> n == part.nUnsent
  {
    U8(part.Pending())
  }

  /** `int inputChannel` holds the `unsigned` channel through the conversion to a signed 32-bit value. */
  function ToInt32(x: uint32): (v: int)
    ensures -0x8000_0000 <= v < 0x8000_0000
    ensures U32(v) == x
  {
    if x < 0x8000_0000 then x else x - 0x1_0000_0000
  }

  class MidiObject {
    /** `enabled`. */
    var enabled: bool
    /** `inputChannel`. */
    var inputChannel: int
    /** The source's file-level `outPacket`, which every send reuses. */
    var outPacket: Packet

    constructor()
      ensures !enabled && inputChannel == 0
    {
      enabled := false;
      inputChannel := 0;
      outPacket := Packet(0, 0, 0, 0, 0);
    }

    /** `setChannel`. */
    method SetChannel(channel: uint32)
      modifies this
      ensures inputChannel == ToInt32(channel) && enabled == old(enabled) && outPacket == old(outPacket)
    {
      inputChannel := ToInt32(channel);
    }

    /** `USBMidi::init`, run when the part is registered. */
    method InitPart() returns (ok: bool)
      modifies this
      ensures ok && inputChannel == 0 && enabled == old(enabled) && outPacket == old(outPacket)
    {
      inputChannel := 0;
      return true;
    }

    /** `begin`: the channel is always set; registration happens only while not yet enabled. */
    method Begin(channel: uint32) returns (registered: bool)
      modifies this
      ensures inputChannel == ToInt32(channel) && enabled && outPacket == old(outPacket)
      ensures registered <==> !old(enabled)
    {
      SetChannel(channel);
      if enabled {
        return false;
      }
      enabled := true;
      return true;
    }

    /** `end`: clears the flag when it was set. */
    method End()
      modifies this
      ensures !enabled && inputChannel == old(inputChannel) && outPacket == old(outPacket)
    {
      if enabled {
        enabled := false;
      }
    }

    /** `sendNoteOff`. */
    method SendNoteOff(part: MidiPart, connected: bool, channel: uint32, note: uint32, velocity: uint32) returns (sent: seq<uint32>)
      requires part.Valid() && part.txEpSize >= 4
      modifies this, part
      ensures part.Valid() && enabled == old(enabled) && inputChannel == old(inputChannel)
      ensures outPacket == VoicePacket(CIN_NOTE_OFF, NOTE_OFF, channel, note, velocity)
      ensures sent == if connected then [ToWord(outPacket)] else []
    {
      outPacket := VoicePacket(CIN_NOTE_OFF, NOTE_OFF, channel, note, velocity);
      sent := WritePacket(part, connected, ToWord(outPacket));
    }

    /** `sendNoteOn`. */
    method SendNoteOn(part: MidiPart, connected: bool, channel: uint32, note: uint32, velocity: uint32) returns (sent: seq<uint32>)
      requires part.Valid() && part.txEpSize >= 4
      modifies this, part
      ensures part.Valid() && enabled == old(enabled) && inputChannel == old(inputChannel)
      ensures outPacket == VoicePacket(CIN_NOTE_ON, NOTE_ON, channel, note, velocity)
      ensures sent == if connected then [ToWord(outPacket)] else []
    {
      outPacket := VoicePacket(CIN_NOTE_ON, NOTE_ON, channel, note, velocity);
      sent := WritePacket(part, connected, ToWord(outPacket));
    }

    /** `sendVelocityChange`: polyphonic key pressure. */
    method SendVelocityChange(part: MidiPart, connected: bool, channel: uint32, note: uint32, velocity: uint32) returns (sent: seq<uint32>)
      requires part.Valid() && part.txEpSize >= 4
      modifies this, part
      ensures part.Valid() && enabled == old(enabled) && inputChannel == old(inputChannel)
      ensures outPacket == VoicePacket(CIN_AFTER_TOUCH, AFTER_TOUCH, channel, note, velocity)
      ensures sent == if connected then [ToWord(outPacket)] else []
    {
      outPacket := VoicePacket(CIN_AFTER_TOUCH, AFTER_TOUCH, channel, note, velocity);
      sent := WritePacket(part, connected, ToWord(outPacket));
    }

    /** `sendControlChange`. */
    method SendControlChange(part: MidiPart, connected: bool, channel: uint32, controller: uint32, value: uint32) returns (sent: seq<uint32>)
      requires part.Valid() && part.txEpSize >= 4
      modifies this, part
      ensures part.Valid() && enabled == old(enabled) && inputChannel == old(inputChannel)
      ensures outPacket == VoicePacket(CIN_CONTROL_CHANGE, CONTROL_CHANGE, channel, controller, value)
      ensures sent == if connected then [ToWord(outPacket)] else []
    {
      outPacket := VoicePacket(CIN_CONTROL_CHANGE, CONTROL_CHANGE, channel, controller, value);
      sent := WritePacket(part, connected, ToWord(outPacket));
    }

    /** `sendProgramChange`. */
    method SendProgramChange(part: MidiPart, connected: bool, channel: uint32, program: uint32) returns (sent: seq<uint32>)
      requires part.Valid() && part.txEpSize >= 4
      modifies this, part
      ensures part.Valid() && enabled == old(enabled) && inputChannel == old(inputChannel)
      ensures outPacket == TwoBytePacket(old(outPacket), CIN_PROGRAM_CHANGE, PROGRAM_CHANGE, channel, program)
      ensures sent == if connected then [ToWord(outPacket)] else []
    {
      outPacket := TwoBytePacket(outPacket, CIN_PROGRAM_CHANGE, PROGRAM_CHANGE, channel, program);
      sent := WritePacket(part, connected, ToWord(outPacket));
    }

    /** `sendAfterTouch`: channel pressure. */
    method SendAfterTouch(part: MidiPart, connected: bool, channel: uint32, velocity: uint32) returns (sent: seq<uint32>)
      requires part.Valid() && part.txEpSize >= 4
      modifies this, part
      ensures part.Valid() && enabled == old(enabled) && inputChannel == old(inputChannel)
      ensures outPacket == TwoBytePacket(old(outPacket), CIN_CHANNEL_PRESSURE, CHANNEL_PRESSURE, channel, velocity)
      ensures sent == if connected then [ToWord(outPacket)] else []
    {
      outPacket := TwoBytePacket(outPacket, CIN_CHANNEL_PRESSURE, CHANNEL_PRESSURE, channel, velocity);
      sent := WritePacket(part, connected, ToWord(outPacket));
    }

    /** `sendPitchChange`. */
    method SendPitchChange(part: MidiPart, connected: bool, pitch: uint32) returns (sent: seq<uint32>)
      requires part.Valid() && part.txEpSize >= 4
      modifies this, part
      ensures part.Valid() && enabled == old(enabled) && inputChannel == old(inputChannel)
      ensures outPacket == FourteenBitPacket(CIN_PITCH_WHEEL, PITCH_WHEEL, pitch)
      ensures sent == if connected then [ToWord(outPacket)] else []
    {
      outPacket := FourteenBitPacket(CIN_PITCH_WHEEL, PITCH_WHEEL, pitch);
      sent := WritePacket(part, connected, ToWord(outPacket));
    }

    /** `sendSongPosition`. */
    method SendSongPosition(part: MidiPart, connected: bool, position: uint32) returns (sent: seq<uint32>)
      requires part.Valid() && part.txEpSize >= 4
      modifies this, part
      ensures part.Valid() && enabled == old(enabled) && inputChannel == old(inputChannel)
      ensures outPacket == FourteenBitPacket(CIN_3BYTE_SYS_COMMON, SONG_POSITION_PTR, position)
      ensures sent == if connected then [ToWord(outPacket)] else []
    {
      outPacket := FourteenBitPacket(CIN_3BYTE_SYS_COMMON, SONG_POSITION_PTR, position);
      sent := WritePacket(part, connected, ToWord(outPacket));
    }

    /** `sendSongSelect`. */
    method SendSongSelect(part: MidiPart, connected: bool, song: uint32) returns (sent: seq<uint32>)
      requires part.Valid() && part.txEpSize >= 4
      modifies this, part
      ensures part.Valid() && enabled == old(enabled) && inputChannel == old(inputChannel)
      ensures outPacket == SongSelectPacket(old(outPacket), song)
      ensures sent == if connected then [ToWord(outPacket)] else []
    {
      outPacket := SongSelectPacket(outPacket, song);
      sent := WritePacket(part, connected, ToWord(outPacket));
    }

    /**
     * `sendTuneRequest`, `sendSync`, `sendStart`, `sendContinue`,
     * `sendStop`, `sendActiveSense` and `sendReset`, which differ only in
     * the status byte.
     */
    method SendSystem(part: MidiPart, connected: bool, status: byte) returns (sent: seq<uint32>)
      requires part.Valid() && part.txEpSize >= 4
      requires SystemEvent(status).Some?
      modifies this, part
      ensures part.Valid() && enabled == old(enabled) && inputChannel == old(inputChannel)
      ensures outPacket == OneBytePacket(old(outPacket), status)
      ensures sent == if connected then [ToWord(outPacket)] else []
    {
      outPacket := OneBytePacket(outPacket, status);
      sent := WritePacket(part, connected, ToWord(outPacket));
    }
  }
}
