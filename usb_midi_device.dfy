// The MIDI-only device driver: the packet counters behind its bulk IN and
// OUT endpoints, their callbacks and reset, the string descriptor bound
// and the Intel-HEX-over-SysEx line encoder.  A packet is one 32-bit USB-MIDI
// event (section 4 of the USB MIDI 1.0 class definition).
module MidiDevice {
  import opened Prelude
  import opened UsbCore

  /** Five string descriptors: LangID, manufacturer, product, interface and jack. */
  const N_STRING_DESCRIPTORS: nat := 5

  /** Code index numbers of SysEx packets (table 4-1 of USB MIDI 1.0). */
  const CIN_SYSEX: byte := 0x04
  const CIN_SYSEX_ENDS_IN_1: byte := 0x05
  const CIN_SYSEX_ENDS_IN_2: byte := 0x06
  const CIN_SYSEX_ENDS_IN_3: byte := 0x07

  /** `usbGetStringDescriptor` of this device. */
  function StringDescriptor(index: byte): (r: Option<nat>)
    ensures r.Some? <==> index < N_STRING_DESCRIPTORS
    ensures r.Some? ==> r.value == index
  {
    StringDescriptorIndex(index, N_STRING_DESCRIPTORS)
  }

  /** `HEXCHAR`: the upper-case hex digit of a nibble. */
  function HexChar(c: nat): (r: byte)
    requires c < 16
    ensures c <= 9 ==> r == '0' as int + c
    ensures c >= 10 ==> r == 'A' as int + (c - 10)
  {
    if c > 9 then 55 + c else 48 + c
  }

  /** The nibble an upper-case hex digit stands for. */
  function HexValue(ch: byte): (c: nat)
  {
    if '0' as int <= ch <= '9' as int then ch - '0' as int
    else if 'A' as int <= ch <= 'F' as int then ch - 'A' as int + 10
    else 0
  }

  /** Every nibble comes back from its digit. */
  lemma HexCharRoundTrip(c: nat)
    requires c < 16
    ensures HexValue(HexChar(c)) == c
    ensures HexChar(c) != ':' as int && HexChar(c) != 0xF7
  {
  }

  /** The two digits of a byte, `HIGHNIBBLE` first. */
  function HexPair(b: byte): (r: seq<byte>)
    ensures |r| == 2 && 16 * HexValue(r[0]) + HexValue(r[1]) == b
  {
    HexCharRoundTrip(b / 16);
    HexCharRoundTrip(b % 16);
    [HexChar(b / 16), HexChar(b % 16)]
  }

  /** The digits of a run of bytes. */
  function HexDigits(bs: seq<byte>): (r: seq<byte>)
    ensures |r| == 2 * |bs|
  {
    if bs == [] then [] else HexDigits(bs[..|bs| - 1]) + HexPair(bs[|bs| - 1])
  }

  /** The text of a hex record ahead of its checksum: ':', length, address high and low, record type, payload. */
  function RecordText(rectype: byte, address: uint16, payload: seq<byte>): (r: seq<byte>)
    requires |payload| < 0x100
    ensures |r| == 9 + 2 * |payload| && r[0] == ':' as int
  {
    RecordHeader(rectype, address, |payload|) + HexDigits(payload)
  }

  function RecordHeader(rectype: byte, address: uint16, length: byte): (h: seq<byte>)
    ensures |h| == 9 && h[0] == ':' as int
  {
    [':' as int] + HexPair(length) + HexPair(address / 0x100) + HexPair(address % 0x100) + HexPair(rectype)
  }

  /** The sum the checksum is taken over: the length, both address bytes, the record type and the payload. */
  function RecordSum(rectype: byte, address: uint16, payload: seq<byte>): nat
  {
    |payload| + address / 0x100 + address % 0x100 + rectype + Sum(payload)
  }

  function Sum(bs: seq<byte>): nat
  {
    if bs == [] then 0 else Sum(bs[..|bs| - 1]) + bs[|bs| - 1]
  }

  /** `~((uint8_t) checksum) + 1` stored in a byte: the two's complement of the sum's low byte. */
  function Checksum(sum: nat): (n: byte)
    ensures n == 0 <==> sum % 0x100 == 0
  {
    (0x100 - sum % 0x100) % 0x100
  }

  /** Adding the checksum to the sum clears its low byte, which is how a reader checks a record. */
  lemma ChecksumCancels(sum: nat)
    ensures (sum + Checksum(sum)) % 0x100 == 0
  {
    var q, r := sum / 0x100, sum % 0x100;
    assert sum == 0x100 * q + r;
    if r == 0 {
      assert sum + Checksum(sum) == 0x100 * q;
    } else {
      assert sum + Checksum(sum) == 0x100 * (q + 1);
    }
  }

  /**
   * The SysEx packing of the text: each character is appended and every
   * third one is followed by a CIN_SYSEX marker; `third` counts the
   * characters since the last marker.
   */
  datatype Framing = Framing(out: seq<byte>, third: nat)

  function Emit(f: Framing, ch: byte): (r: Framing)
  {
    if f.third + 1 == 3 then Framing(f.out + [ch, CIN_SYSEX], 0) else Framing(f.out + [ch], f.third + 1)
  }

  function Framed(cs: seq<byte>): (r: Framing)
    ensures r.third < 3 && |r.out| >= |cs|
  {
    if cs == [] then Framing([], 0) else Emit(Framed(cs[..|cs| - 1]), cs[|cs| - 1])
  }

  /** `thirdone` counts the characters past the last whole group. */
  lemma {:induction false} FramedThird(cs: seq<byte>)
    ensures Framed(cs).third == |cs| % 3
  {
    if cs != [] {
      FramedThird(cs[..|cs| - 1]);
    }
  }

  /** Markers only follow characters: the packing starts with the first character. */
  lemma {:induction false} FramedFirst(cs: seq<byte>)
    requires cs != []
    ensures Framed(cs).out[0] == cs[0]
  {
    if |cs| > 1 {
      FramedFirst(cs[..|cs| - 1]);
    }
  }

  /**
   * The tail `iSysHexLine` puts after the packed text: the last marker
   * becomes CIN_SYSEX_ENDS_IN_3 when the text filled its last group, then
   * the two checksum digits with an end marker after the first or second
   * as the count dictates, and the SysEx end byte 0xF7.
   */
  function Finish(f: Framing, n: byte): (r: seq<byte>)
    requires f.third < 3 && (f.third == 0 ==> f.out != [])
  {
    var out := if f.third == 0 then f.out[|f.out| - 1 := CIN_SYSEX_ENDS_IN_3] else f.out;
    var d := HexPair(n);
    out + [d[0]] + (if f.third == 1 then [CIN_SYSEX_ENDS_IN_2] else [])
      + [d[1]] + (if f.third == 2 then [CIN_SYSEX_ENDS_IN_1] else []) + [0xF7]
  }

  /** The buffer `iSysHexLine` fills. */
  function HexLine(rectype: byte, address: uint16, payload: seq<byte>): (r: seq<byte>)
    requires |payload| < 0x100
    ensures |r| >= 4 && r[0] == ':' as int && r[|r| - 1] == 0xF7
  {
    var f := Framed(RecordText(rectype, address, payload));
    FramedFirst(RecordText(rectype, address, payload));
    FinishLayout(f, Checksum(RecordSum(rectype, address, payload)));
    Finish(f, Checksum(RecordSum(rectype, address, payload)))
  }

  /** Where `Finish` puts the checksum digits and the end byte, for each count of trailing characters. */
  lemma FinishLayout(f: Framing, n: byte)
    requires f.third < 3 && |f.out| >= 2
    ensures var line := Finish(f, n);
      |line| >= |f.out| + 3 && line[0] == f.out[0] && line[|line| - 1] == 0xF7
    ensures var line := Finish(f, n);
      var hi := line[|line| - (if f.third == 0 then 3 else 4)];
      var lo := line[|line| - (if f.third == 2 then 3 else 2)];
      16 * HexValue(hi) + HexValue(lo) == n
  {
    var out := if f.third == 0 then f.out[|f.out| - 1 := CIN_SYSEX_ENDS_IN_3] else f.out;
    var d := HexPair(n);
    var line := Finish(f, n);
    if f.third == 0 {
      assert line == out + [d[0], d[1], 0xF7];
    } else if f.third == 1 {
      assert line == out + [d[0], CIN_SYSEX_ENDS_IN_2, d[1], 0xF7];
    } else {
      assert line == out + [d[0], d[1], CIN_SYSEX_ENDS_IN_1, 0xF7];
    }
  }

  /** The header's nine characters leave the count of trailing characters to the payload's digits. */
  lemma TextThird(rectype: byte, address: uint16, payload: seq<byte>)
    requires |payload| < 0x100
    ensures Framed(RecordText(rectype, address, payload)).third == (2 * |payload|) % 3
  {
    FramedThird(RecordText(rectype, address, payload));
    NineMore(2 * |payload|);
  }

  lemma NineMore(m: nat)
    ensures (9 + m) % 3 == m % 3
  {
  }

  /**
   * The line starts with ':' and ends with 0xF7, and the two digits before
   * the end (markers aside) spell the two's complement of the sum's low byte.
   */
  lemma HexLineFrame(rectype: byte, address: uint16, payload: seq<byte>)
    requires |payload| < 0x100
    ensures var line := HexLine(rectype, address, payload);
      |line| >= 4 && line[0] == ':' as int && line[|line| - 1] == 0xF7
    ensures var line := HexLine(rectype, address, payload);
      var th := (2 * |payload|) % 3;
      var hi := line[|line| - (if th == 0 then 3 else 4)];
      var lo := line[|line| - (if th == 2 then 3 else 2)];
      (RecordSum(rectype, address, payload) + 16 * HexValue(hi) + HexValue(lo)) % 0x100 == 0
  {
    var f := Framed(RecordText(rectype, address, payload));
    TextThird(rectype, address, payload);
    FramedFirst(RecordText(rectype, address, payload));
    var sum := RecordSum(rectype, address, payload);
    FinishLayout(f, Checksum(sum));
    ChecksumCancels(sum);
    assert HexLine(rectype, address, payload) == Finish(f, Checksum(sum));
    assert f.third == (2 * |payload|) % 3;
  }

  /** The low byte survives the 16-bit wrap of the running checksum. */
  lemma LowByteOfWrapped(x: nat)
    ensures (x % 0x10000) % 0x100 == x % 0x100
  {
    var q := x / 0x10000;
    var r := x % 0x10000;
    assert x == 0x100 * (0x100 * q) + r;
    assert r / 0x100 * 0x100 + r % 0x100 == r;
    assert x == 0x100 * (0x100 * q + r / 0x100) + r % 0x100;
  }

  /** Adding to two numbers with the same low byte keeps their low bytes equal. */
  lemma AddLow(c: nat, s: nat, b: nat)
    requires c % 0x100 == s % 0x100
    ensures (c + b) % 0x100 == (s + b) % 0x100
  {
    assert c == 0x100 * (c / 0x100) + c % 0x100;
    assert s == 0x100 * (s / 0x100) + s % 0x100;
    assert c + b - (s + b) == 0x100 * (c / 0x100 - s / 0x100);
  }

  /** One more payload byte in the 16-bit running checksum keeps its low byte that of the sum. */
  lemma ChecksumStep(c: uint16, base: nat, payload: seq<byte>, j: nat)
    requires j < |payload| && c % 0x100 == (base + Sum(payload[..j])) % 0x100
    ensures U16(c + payload[j]) % 0x100 == (base + Sum(payload[..j + 1])) % 0x100
  {
    assert payload[..j + 1][..j] == payload[..j];
    assert Sum(payload[..j + 1]) == Sum(payload[..j]) + payload[j];
    AddLow(c, base + Sum(payload[..j]), payload[j]);
    LowByteOfWrapped(c + payload[j]);
  }

  /** Three more characters after whole groups make one more group and its marker. */
  lemma FramedGroup(cs: seq<byte>, g: seq<byte>)
    requires |cs| % 3 == 0 && |g| == 3
    ensures Framed(cs + g) == Framing(Framed(cs).out + g + [CIN_SYSEX], 0)
  {
    var f := Framed(cs);
    FramedThird(cs);
    assert (cs + g[..1])[..|cs|] == cs;
    assert Framed(cs + g[..1]) == Framing(f.out + g[..1], 1);
    assert (cs + g[..2])[..|cs| + 1] == cs + g[..1];
    assert Framed(cs + g[..2]) == Framing(f.out + g[..1] + [g[1]], 2);
    assert (cs + g)[..|cs| + 2] == cs + g[..2];
    assert Framed(cs + g) == Framing(f.out + g[..1] + [g[1]] + [g[2], CIN_SYSEX], 0);
    assert f.out + g[..1] + [g[1]] + [g[2], CIN_SYSEX] == f.out + g + [CIN_SYSEX];
  }

  /** The nine header characters fill three groups exactly. */
  lemma HeaderFramed(g1: seq<byte>, g2: seq<byte>, g3: seq<byte>)
    requires |g1| == 3 && |g2| == 3 && |g3| == 3
    ensures Framed(g1 + g2 + g3) == Framing(g1 + [CIN_SYSEX] + g2 + [CIN_SYSEX] + g3 + [CIN_SYSEX], 0)
  {
    assert [] + g1 == g1;
    FramedGroup([], g1);
    FramedGroup(g1, g2);
    FramedGroup(g1 + g2, g3);
  }

  /** One more payload byte adds its two digits to the packing. */
  lemma DigitsStep(header: seq<byte>, payload: seq<byte>, j: nat)
    requires j < |payload|
    ensures var b := payload[j];
      Framed(header + HexDigits(payload[..j + 1])) == Emit(Emit(Framed(header + HexDigits(payload[..j])), HexChar(b / 16)), HexChar(b % 16))
  {
    var b := payload[j];
    var before := header + HexDigits(payload[..j]);
    assert payload[..j + 1][..j] == payload[..j];
    assert header + HexDigits(payload[..j + 1]) == before + [HexChar(b / 16)] + [HexChar(b % 16)];
    assert (before + [HexChar(b / 16)] + [HexChar(b % 16)])[..|before| + 1] == before + [HexChar(b / 16)];
    assert (before + [HexChar(b / 16)])[..|before|] == before;
  }

  /** The header as `iSysHexLine` writes it, three characters to a group. */
  lemma HeaderGroups(rectype: byte, address: uint16, length: byte)
    ensures var len, hi, lo, rt := HexPair(length), HexPair(address / 0x100), HexPair(address % 0x100), HexPair(rectype);
      [':' as int, len[0], len[1]] + [hi[0], hi[1], lo[0]] + [lo[1], rt[0], rt[1]] == RecordHeader(rectype, address, length)
  {
  }

  /** The byte `~x + 1` computed from a running checksum with the right low byte is the checksum of the sum. */
  lemma ChecksumOfLowByte(c: nat, sum: nat)
    requires c % 0x100 == sum % 0x100
    ensures (0x100 - c % 0x100) % 0x100 == Checksum(sum)
  {
  }

  /**
   * The payload loop of `iSysHexLine`: two digits per byte, each followed
   * by a marker when it completes a group, and the byte added to the
   * running checksum.
   */
  method PackPayload(header: seq<byte>, base: nat, payload: seq<byte>, f0: Framing, c0: uint16)
      returns (f: Framing, checksum: uint16)
    requires f0 == Framed(header) && c0 % 0x100 == base % 0x100
    ensures f == Framed(header + HexDigits(payload))
    ensures checksum % 0x100 == (base + Sum(payload)) % 0x100
  {
    f, checksum := f0, c0;
    assert payload[..0] == [] && header + HexDigits([]) == header;
    assert Sum(payload[..0]) == 0;
    var j := 0;
    while j < |payload|
      invariant 0 <= j <= |payload|
      invariant f == Framed(header + HexDigits(payload[..j]))
      invariant checksum % 0x100 == (base + Sum(payload[..j])) % 0x100
    {
      var b := payload[j];
      DigitsStep(header, payload, j);
      ChecksumStep(checksum, base, payload, j);
      checksum := U16(checksum + b);
      f := Emit(f, HexChar(b / 16));
      f := Emit(f, HexChar(b % 16));
      j := j + 1;
    }
    assert payload[..|payload|] == payload;
  }

  /**
   * `iSysHexLine`: fill the line one character at a time, keeping the
   * running checksum in a `uint16` and the characters since the last
   * marker in `thirdone`.  The result is the index past the line plus
   * `thirdone`, through the `uint8_t` return type.
   */
  method SysHexLine(rectype: byte, address: uint16, payload: seq<byte>) returns (n: byte, buffer: seq<byte>)
    requires |payload| < 0x100
    ensures buffer == HexLine(rectype, address, payload)
    ensures n == U8(|buffer| + (2 * |payload|) % 3)
  {
    var checksum: uint16 := 0;
    var f := Framing([], 0);
    var len, hi, lo, rt := HexPair(|payload|), HexPair(address / 0x100), HexPair(address % 0x100), HexPair(rectype);
    var g1: seq<byte>, g2: seq<byte>, g3: seq<byte> := [':' as int, len[0], len[1]], [hi[0], hi[1], lo[0]], [lo[1], rt[0], rt[1]];
    var header := g1 + g2 + g3;
    f := Framing(g1 + [CIN_SYSEX] + g2 + [CIN_SYSEX] + g3 + [CIN_SYSEX], 0);
    HeaderFramed(g1, g2, g3);
    var base := |payload| + address / 0x100 + address % 0x100 + rectype;
    checksum := U16(base);
    LowByteOfWrapped(base);
    f, checksum := PackPayload(header, base, payload, f, checksum);
    HeaderGroups(rectype, address, |payload|);
    TextThird(rectype, address, payload);
    var c := (0x100 - checksum % 0x100) % 0x100;
    ChecksumOfLowByte(checksum, RecordSum(rectype, address, payload));
    buffer := Finish(f, c);
    assert buffer == HexLine(rectype, address, payload);
    n := U8(|buffer| + f.third);
  }

  class MidiPart {
    /** `midiBufferRx`, `USB_MIDI_RX_EPSIZE / 4` packets. */
    const rxBuffer: array<uint32>
    /** `USB_MIDI_TX_EPSIZE`, the IN endpoint size in bytes. */
    const txEpSize: nat
    var rxOffset: nat
    var nUnread: nat
    var nUnsent: nat
    var transmitting: bool

    ghost predicate Valid()
      reads this
    {
      rxOffset + nUnread <= rxBuffer.Length && (nUnread == 0 ==> rxOffset == 0)
    }

    /** The packets received and not yet read, oldest first. */
    ghost function Unread(): (q: seq<uint32>)
      requires Valid()
      reads this, rxBuffer
      ensures |q| == nUnread
    {
      rxBuffer[rxOffset..rxOffset + nUnread]
    }

    /** The endpoint sizes come from the device header, which is not part of this model. */
    constructor(rxEpSize: nat, txSize: nat)
      ensures Valid() && fresh(rxBuffer) && rxBuffer.Length == rxEpSize / 4 && txEpSize == txSize
      ensures nUnread == 0 && nUnsent == 0 && !transmitting
    {
      rxBuffer := new uint32[rxEpSize / 4](_ => 0);
      txEpSize := txSize;
      rxOffset := 0;
      nUnread := 0;
      nUnsent := 0;
      transmitting := false;
    }

    /**
     * `usb_midi_tx`: nothing while a transmission is in flight; otherwise
     * as many of `packets` as the endpoint holds (the byte count computed
     * in 32 bits) are sent and recorded as unsent until the IN callback.
     */
    method Tx(buf: seq<uint32>, packets: uint32) returns (r: nat, sent: seq<uint32>)
      requires Valid() && packets <= |buf|
      modifies this
      ensures Valid() && rxOffset == old(rxOffset) && nUnread == old(nUnread)
      ensures old(transmitting) ==> r == 0 && sent == [] && nUnsent == old(nUnsent) && transmitting
      ensures !old(transmitting) ==> r <= packets && (packets > 0 && txEpSize >= 4 ==> r > 0)
      ensures !old(transmitting) ==> transmitting && nUnsent == r && 4 * |sent| <= txEpSize && |sent| <= |buf| && sent == buf[..|sent|]
      ensures !old(transmitting) && packets * 4 < 0x1_0000_0000 ==> r == Min(packets, txEpSize / 4) && |sent| == r
      ensures !old(transmitting) && U32(packets * 4) <= txEpSize ==> r == packets && 4 * |sent| == U32(packets * 4)
    {
      if transmitting {
        return 0, [];
      }
      var bytes := U32(packets * 4);
      var count: nat := packets;
      if bytes > txEpSize {
        bytes := txEpSize;
        count := bytes / 4;
      }
      assert bytes / 4 <= packets;
      sent := [];
      if count > 0 {
        sent := buf[..bytes / 4];
      }
      nUnsent := count;
      transmitting := true;
      return count, sent;
    }

    /** `usb_midi_data_available`. */
    function DataAvailable(): (n: nat)
      requires Valid()
      reads this, rxBuffer
      ensures n == |Unread()|
    {
      nUnread
    }

    /** `usb_midi_get_pending`, through its `uint16` result. */
    function Pending(): (n: uint16)
      reads this
      ensures nUnsent < 0x1_0000 ==> n == nUnsent
    {
      U16(nUnsent)
    }

    /** `usb_midi_peek`: the oldest `min(packets, unread)` packets, copied to `out` from index `at` and left unread. */
    method Peek(out: array<uint32>, at: nat, packets: nat) returns (n: nat)
      requires Valid() && out != rxBuffer && at + Min(packets, nUnread) <= out.Length
      modifies out
      ensures n == Min(packets, nUnread)
      ensures out[at..at + n] == Unread()[..n]
      ensures out[..at] == old(out[..at]) && out[at + n..] == old(out[at + n..])
    {
      n := Min(packets, nUnread);
      var i := 0;
      while i < n
        invariant 0 <= i <= n
        invariant out[at..at + i] == Unread()[..i]
        invariant out[..at] == old(out[..at]) && out[at + n..] == old(out[at + n..])
      {
        out[at + i] := rxBuffer[i + rxOffset];
        i := i + 1;
        assert out[at..at + i] == out[at..at + i - 1] + [out[at + i - 1]];
      }
    }

    /**
     * `usb_midi_rx`: what `Peek` copies, marked read; once nothing is
     * left unread the offset returns to the start of the buffer.
     */
    method Rx(out: array<uint32>, at: nat, packets: nat) returns (n: nat)
      requires Valid() && out != rxBuffer && at + Min(packets, nUnread) <= out.Length
      modifies this, out
      ensures Valid() && n == Min(packets, old(nUnread))
      ensures out[at..at + n] == old(Unread())[..n]
      ensures out[..at] == old(out[..at]) && out[at + n..] == old(out[at + n..])
      ensures Unread() == old(Unread())[n..]
      ensures nUnread == 0 ==> rxOffset == 0
      ensures nUnsent == old(nUnsent) && transmitting == old(transmitting)
    {
      ghost var q := Unread();
      n := Peek(out, at, packets);
      assert rxBuffer[rxOffset + n..rxOffset + nUnread] == q[n..];
      nUnread := nUnread - n;
      rxOffset := rxOffset + n;
      if nUnread == 0 {
        rxOffset := 0;
      }
    }

    /** `midiDataTxCb`: the IN packet has gone. */
    method TxCallback()
      modifies this
      ensures nUnsent == 0 && !transmitting
      ensures rxOffset == old(rxOffset) && nUnread == old(nUnread)
    {
      nUnsent := 0;
      transmitting := false;
    }

    /**
     * `midiDataRxCb`: the endpoint NAKs while anything is unread, so an OUT
     * packet of `packets` events arrives into a drained buffer and becomes
     * the unread packets.
     */
    method RxCallback(packets: seq<uint32>)
      requires Valid() && nUnread == 0 && |packets| <= rxBuffer.Length
      modifies this, rxBuffer
      ensures Valid() && Unread() == packets
      ensures nUnsent == old(nUnsent) && transmitting == old(transmitting)
    {
      var i := 0;
      while i < |packets|
        invariant 0 <= i <= |packets| && rxOffset == 0 && nUnread == 0
        invariant nUnsent == old(nUnsent) && transmitting == old(transmitting)
        invariant rxBuffer[..i] == packets[..i]
      {
        rxBuffer[i] := packets[i];
        i := i + 1;
        assert rxBuffer[..i] == rxBuffer[..i - 1] + [rxBuffer[i - 1]];
      }
      nUnread := |packets|;
      assert rxBuffer[..nUnread] == packets;
    }

    /** `usbReset`: the three counters return to 0; `transmitting` is left as it was. */
    method Reset()
      modifies this
      ensures Valid() && nUnread == 0 && nUnsent == 0 && rxOffset == 0
      ensures transmitting == old(transmitting)
    {
      nUnread := 0;
      nUnsent := 0;
      rxOffset := 0;
    }
  }
}
