// The isochronous audio part: its configuration by `usb_audio_init` and
// `usb_audio_setEPSize`, its transmit and receive queues, the index effect
// of the per-frame endpoint callbacks and the class control requests of
// section 5.2 of the USB Audio 2.0 specification (CUR and RANGE of the
// clock source's sampling frequency).
module UsbAudio {
  import opened Prelude
  import opened UsbCore
  import opened ByteRing

  /** `CUR`, `RANGE` and `CLOCK_SOURCE_ID`. */
  const CUR: byte := 0x01
  const RANGE: byte := 0x02
  const CLOCK_SOURCE_ID: byte := 0x10

  /** `bmRequestType` of a class request to the interface, host to device and device to host. */
  const CLASS_INTERFACE_IN: byte := 0xA1

  /**
   * The codes a part type is built from: a device kind in the low byte and
   * an audio class version in the high byte.  The header that fixes them is
   * not part of this model; the model assumes only that they are distinct
   * and sit in their own byte.
   */
  datatype AudioCodes = AudioCodes(micMono: byte, micStereo: byte, speakerMono: byte, speakerStereo: byte,
                                   class1: uint16, class2: uint16)

  predicate ValidCodes(c: AudioCodes)
  {
    && c.micMono != c.micStereo && c.micMono != c.speakerMono && c.micMono != c.speakerStereo
    && c.micStereo != c.speakerMono && c.micStereo != c.speakerStereo && c.speakerMono != c.speakerStereo
    && c.class1 % 0x100 == 0 && c.class2 % 0x100 == 0 && c.class1 != c.class2
  }

  /** The endpoint the part uses: IN for a microphone, OUT for a speaker. */
  datatype Direction = In | Out

  /** The configuration descriptor layout, audio class 1 or 2. */
  datatype AudioClass = Class1 | Class2

  /** `srr_data`: the one-subrange sampling frequency range of the clock source. */
  datatype SampleRateRange = SampleRateRange(numSubRanges: uint16, min: uint32, max: uint32, res: uint32)

  /** The 14 packed little-endian bytes of a range, as a RANGE request returns them. */
  function RangeBytes(r: SampleRateRange): (b: seq<byte>)
    ensures |b| == 14
    ensures LE16(b, 0) == r.numSubRanges && LE32(b, 2) == r.min && LE32(b, 6) == r.max && LE32(b, 10) == r.res
  {
    var b := LE16Bytes(r.numSubRanges) + LE32Bytes(r.min) + LE32Bytes(r.max) + LE32Bytes(r.res);
    assert b[2..6] == LE32Bytes(r.min) && b[6..10] == LE32Bytes(r.max) && b[10..14] == LE32Bytes(r.res);
    b
  }

  /** The stereo device kinds. */
  predicate Stereo(c: AudioCodes, kind: byte)
  {
    kind == c.micStereo || kind == c.speakerStereo
  }

  /** The class version bits of a type that `usb_audio_init` accepts: class 1, class 2 or none. */
  predicate SupportedClass(c: AudioCodes, version: uint16)
  {
    version == c.class1 || version == c.class2 || version == 0
  }

  /** `(rate / 1000) * channels` stored into the `uint8` `buffer_size`. */
  function PacketBytes(rate: uint16, stereo: bool): (r: byte)
    ensures r == U8((rate / 1000) * (if stereo then 2 else 1))
    ensures rate / 1000 * 2 < 0x100 ==> r >= rate / 1000
  {
    U8(if stereo then rate / 1000 + rate / 1000 else rate / 1000)
  }

  /**
   * What `audio_get` points the data stage at once it is asked for `length`
   * bytes: for the clock source, CUR of one byte is the clock-valid flag, of
   * two bytes the sample rate, of four bytes the range minimum, and RANGE is
   * the whole range block; anything else is a NULL pointer.
   */
  function ClockSourceData(length: uint16, wIndex: uint16, request: byte,
                           clockValid: byte, sampleRate: uint16, range: SampleRateRange): (r: Option<seq<byte>>)
    ensures r.Some? ==> length != 0 && wIndex / 0x100 == CLOCK_SOURCE_ID && (request == CUR || request == RANGE)
    ensures r.Some? && request == CUR ==> |r.value| == length
    ensures request == CUR && length == 2 && wIndex / 0x100 == CLOCK_SOURCE_ID ==> r == Some(LE16Bytes(sampleRate))
    ensures request == RANGE && length != 0 && wIndex / 0x100 == CLOCK_SOURCE_ID ==> r == Some(RangeBytes(range))
  {
    if length == 0 then None
    else if (wIndex / 0x100) % 0x100 != CLOCK_SOURCE_ID then None
    else if request == CUR then
      if length == 1 then Some([clockValid])
      else if length == 2 then Some(LE16Bytes(sampleRate))
      else if length == 4 then Some(LE32Bytes(range.min))
      else None
    else if request == RANGE then Some(RangeBytes(range))
    else None
  }

  /** `audioUSBDataSetup`: class requests in either direction are taken, anything else is not. */
  function DataSetup(requestType: byte): (r: UsbResult)
    ensures r == Success <==> requestType == CLASS_INTERFACE || requestType == CLASS_INTERFACE_IN
    ensures r == Success || r == Unsupport
  {
    if requestType == CLASS_INTERFACE then Success
    else if requestType == CLASS_INTERFACE_IN then Success
    else Unsupport
  }

  /** `audioUSBNoDataSetup`: no request without a data stage is supported. */
  function NoDataSetup(request: byte): (r: UsbResult)
    ensures r == Unsupport
  {
    Unsupport
  }

  /** Head advance of `audioDataRxCb` as written: an odd packet stores one byte more than it holds. */
  function RxAdvanceAsWritten(size: nat): (n: nat)
    ensures n == size || n == size + 1
    ensures n == size <==> size % 2 == 0
  {
    if size % 2 == 1 then size + 1 else size
  }

  /** An 11-byte packet (11025 Hz mono) moves the receive head 12 places. */
  lemma OddPacketStoresExtraByte()
    ensures RxAdvanceAsWritten(11) == 12
  {
  }

  class AudioPart {
    /** `audioBufferTx` and `audioBufferRx` with their indices. */
    const txq: Ring
    const rxq: Ring
    /** `usbAUDIOPart.endpoints`, `None` until a known device kind is configured. */
    var endpoints: Option<Direction>
    /** `usbAUDIOPart.getPartDescriptor`, `None` until a known class is configured. */
    var descriptor: Option<AudioClass>
    var channels: byte
    /** `buffer_size`: bytes per one-millisecond frame. */
    var bufferSize: byte
    var sampleRate: uint16
    var range: SampleRateRange
    /** `usbAUDIOPart.endpoints[0].bufferSize`. */
    var epBufferSize: nat
    /** `clock_valid`. */
    const clockValid: byte

    ghost predicate Valid()
      reads this, txq, rxq
    {
      txq.Valid() && rxq.Valid() && txq != rxq && txq.buf != rxq.buf
    }

    /** The static initialisers. */
    constructor()
      ensures Valid() && fresh(txq) && fresh(rxq) && fresh(txq.buf) && fresh(rxq.buf)
      ensures txq.Contents() == [] && rxq.Contents() == []
      ensures endpoints == None && descriptor == None && clockValid == 1
      ensures range == SampleRateRange(1, 0, 0, 0)
    {
      txq := new Ring();
      rxq := new Ring();
      endpoints := None;
      descriptor := None;
      channels := 0;
      bufferSize := 0;
      sampleRate := 0;
      range := SampleRateRange(1, 0, 0, 0);
      epBufferSize := 0;
      clockValid := 1;
    }

    /**
     * `usb_audio_init`: the device kind in the low byte picks the endpoint
     * direction and the channel count, the class bits in the high byte the
     * descriptor layout.  An unknown class returns 0 and leaves the rate and
     * frame size as they were; otherwise the frame size is returned and the
     * sampling range collapses to the one rate.
     */
    method Init(codes: AudioCodes, partType: uint16, rate: uint16) returns (r: byte)
      requires ValidCodes(codes)
      modifies this
      ensures var kind := partType % 0x100;
        && channels == (if Stereo(codes, kind) then 2 else 1)
        && endpoints == (if kind == codes.micMono || kind == codes.micStereo then Some(In)
                         else if kind == codes.speakerMono || kind == codes.speakerStereo then Some(Out)
                         else old(endpoints))
      ensures var version := partType / 0x100 * 0x100;
        !SupportedClass(codes, version) ==>
          r == 0 && descriptor == old(descriptor) && bufferSize == old(bufferSize)
          && sampleRate == old(sampleRate) && range == old(range)
      ensures var version := partType / 0x100 * 0x100;
        SupportedClass(codes, version) ==>
          && r == bufferSize && bufferSize == PacketBytes(rate, Stereo(codes, partType % 0x100))
          && descriptor == Some(if version == codes.class2 then Class2 else Class1)
          && sampleRate == rate && range == SampleRateRange(1, rate, rate, 0)
      ensures epBufferSize == old(epBufferSize)
    {
      var kind := partType % 0x100;
      var version := partType / 0x100 * 0x100;
      channels := 1;
      if kind == codes.micMono {
        endpoints := Some(In);
      } else if kind == codes.micStereo {
        endpoints := Some(In);
        channels := 2;
      } else if kind == codes.speakerMono {
        endpoints := Some(Out);
      } else if kind == codes.speakerStereo {
        endpoints := Some(Out);
        channels := 2;
      }
      if version == codes.class2 {
        descriptor := Some(Class2);
      } else if version == codes.class1 || version == 0 {
        descriptor := Some(Class1);
      } else {
        return 0;
      }
      bufferSize := U8((rate / 1000) * channels);
      sampleRate := rate;
      range := SampleRateRange(1, sampleRate, sampleRate, 0);
      return bufferSize;
    }

    /**
     * `usb_audio_setEPSize`: 0 or more than a frame means one frame, and the
     * double-buffered IN endpoint gets twice that.
     */
    method SetEPSize(size: uint32)
      modifies this
      ensures var s := if size == 0 || size > bufferSize then bufferSize else size;
        epBufferSize == if endpoints == Some(In) then 2 * s else s
      ensures epBufferSize <= 2 * bufferSize
      ensures endpoints == old(endpoints) && bufferSize == old(bufferSize) && channels == old(channels)
    {
      var s: nat := size;
      if size == 0 || size > bufferSize {
        s := bufferSize;
      }
      if endpoints == Some(In) {
        s := s * 2;
      }
      epBufferSize := s;
    }

    /** `usb_audio_write_tx_data`: queue as much of `src` as fits. */
    method WriteTx(src: seq<byte>) returns (n: nat)
      requires Valid()
      modifies txq, txq.buf
      ensures Valid() && n == Accepted(|src|, old(txq.Count()))
      ensures txq.Contents() == old(txq.Contents()) + src[..n]
      ensures rxq.Contents() == old(rxq.Contents())
    {
      n := txq.Write(src);
    }

    /** `audio_rx_peek`: the oldest `min(len, unread)` received bytes, left queued. */
    method PeekRx(out: array<byte>, len: nat) returns (n: nat)
      requires Valid() && out != rxq.buf && len <= out.Length
      modifies out
      ensures n == Min(len, rxq.Count())
      ensures out[..n] == rxq.Contents()[..n] && out[n..] == old(out[n..])
    {
      n := rxq.Peek(out, 0, len);
    }

    /** `usb_audio_read_rx_data`: what `PeekRx` copies, then dequeued. */
    method ReadRx(out: array<byte>, len: nat) returns (n: nat)
      requires Valid() && out != rxq.buf && out != txq.buf && len <= out.Length
      modifies rxq, out
      ensures Valid() && n == Min(len, old(rxq.Count()))
      ensures out[..n] == old(rxq.Contents())[..n] && out[n..] == old(out[n..])
      ensures rxq.Contents() == old(rxq.Contents())[n..]
      ensures txq.Contents() == old(txq.Contents())
    {
      n := rxq.Read(out, 0, len);
    }

    /**
     * `audioDataTxCb` as written: every frame sends `buffer_size` slots from
     * the tail on and moves the tail past them, whatever is queued; the
     * packet callback is told `buffer_size`.
     */
    method TxFrameAsWritten() returns (packet: seq<byte>, reported: byte)
      requires Valid()
      modifies txq
      ensures Valid() && reported == bufferSize && |packet| == bufferSize
      ensures bufferSize <= old(txq.Count()) ==> txq.Contents() == old(txq.Contents())[bufferSize..]
      ensures bufferSize > old(txq.Count()) ==> txq.Count() == old(txq.Count()) + SIZE - bufferSize
      ensures rxq.Contents() == old(rxq.Contents())
    {
      packet := txq.Skim(bufferSize);
      reported := bufferSize;
    }

    /**
     * The transmit frame that never runs past the queued bytes: at most
     * `buffer_size` of the oldest bytes leave the queue.
     */
    method TxFrame() returns (packet: seq<byte>)
      requires Valid()
      modifies txq
      ensures Valid() && |packet| == Min(bufferSize, old(txq.Count()))
      ensures old(txq.Contents()) == packet + txq.Contents()
      ensures rxq.Contents() == old(rxq.Contents())
    {
      packet := txq.Drain(bufferSize);
    }

    /**
     * `audioDataRxCb` as written: the packet is stored from the head on, and
     * for an odd packet one more byte, the next one in packet memory
     * (`trailing`), is stored after it.  No room is checked.
     */
    method RxFrameAsWritten(packet: seq<byte>, trailing: byte) returns (reported: nat)
      requires Valid() && |packet| < SIZE - 1
      modifies rxq, rxq.buf
      ensures Valid() && reported == |packet|
      ensures rxq.head == Slot(old(rxq.head), RxAdvanceAsWritten(|packet|)) && rxq.tail == old(rxq.tail)
      ensures forall j :: 0 <= j < |packet| ==> rxq.buf[Slot(old(rxq.head), j)] == packet[j]
      ensures |packet| % 2 == 1 ==> rxq.buf[Slot(old(rxq.head), |packet|)] == trailing
      ensures txq.Contents() == old(txq.Contents())
    {
      var stored := if |packet| % 2 == 1 then packet + [trailing] else packet;
      rxq.Store(stored, |stored|);
      reported := |packet|;
    }

    /**
     * The receive frame storing exactly the packet: when it fits beside the
     * unread bytes, the queue gains the packet and nothing else.
     */
    method RxFrame(packet: seq<byte>) returns (reported: nat)
      requires Valid() && |packet| < SIZE
      modifies rxq, rxq.buf
      ensures Valid() && reported == |packet|
      ensures rxq.head == Slot(old(rxq.head), |packet|) && rxq.tail == old(rxq.tail)
      ensures old(rxq.Count()) + |packet| < SIZE ==> rxq.Contents() == old(rxq.Contents()) + packet
      ensures txq.Contents() == old(txq.Contents())
    {
      ghost var s0 := rxq.buf[..];
      ghost var c := rxq.Count();
      rxq.Store(packet, |packet|);
      if c + |packet| < SIZE {
        AppendedContents(s0, rxq.buf[..], rxq.tail, c, packet, |packet|);
        assert packet[..|packet|] == packet;
      }
      reported := |packet|;
    }

    /** `audioUSBReset`: all four indices return to 0. */
    method Reset()
      requires Valid()
      modifies txq, rxq
      ensures Valid() && txq.Contents() == [] && rxq.Contents() == []
      ensures txq.head == 0 && txq.tail == 0 && rxq.head == 0 && rxq.tail == 0
    {
      txq.Reset();
      rxq.Reset();
    }

    /** `audio_get` on the part's clock source state. */
    function ClockData(length: uint16, wIndex: uint16, request: byte): (r: Option<seq<byte>>)
      reads this
      ensures r.Some? ==> length != 0 && wIndex / 0x100 == CLOCK_SOURCE_ID && (request == CUR || request == RANGE)
      ensures request == CUR && length == 2 && wIndex / 0x100 == CLOCK_SOURCE_ID ==> r == Some(LE16Bytes(sampleRate))
      ensures request == RANGE && length != 0 && wIndex / 0x100 == CLOCK_SOURCE_ID ==> r == Some(RangeBytes(range))
    {
      ClockSourceData(length, wIndex, request, clockValid, sampleRate, range)
    }
  }

  /** After a successful init, a RANGE request reports one subrange from the rate to the rate in steps of 0. */
  lemma InitThenRange(rate: uint16, wIndex: uint16, length: uint16)
    requires wIndex / 0x100 == CLOCK_SOURCE_ID && length != 0
    ensures var b := ClockSourceData(length, wIndex, RANGE, 1, rate, SampleRateRange(1, rate, rate, 0)).value;
      LE16(b, 0) == 1 && LE32(b, 2) == rate && LE32(b, 6) == rate && LE32(b, 10) == 0
  {
  }
}
