// The Arduino-style `USBAUDIO` object: its sample period, the packet size
// it takes from the driver and the `enabledAUDIO` flag guarding `begin`
// and `end`.
module AudioDevice {
  import opened Prelude
  import opened UsbAudio

  /**
   * `setSamplePeriod`: microseconds between samples, less one, through the
   * `uint16` it is stored in.
   */
  function SamplePeriod(sampleRate: uint16): (p: uint16)
    requires sampleRate != 0
    ensures sampleRate >= 16 ==> p == 1000000 / sampleRate - 1
  {
    U16(1000000 / sampleRate - 1)
  }

  /** For rates of 16 Hz and more, `period + 1` whole microseconds of samples fit in a second and `period + 2` do not. */
  lemma SamplePeriodBrackets(sampleRate: uint16)
    requires sampleRate >= 16
    ensures (SamplePeriod(sampleRate) + 1) * sampleRate <= 1000000 < (SamplePeriod(sampleRate) + 2) * sampleRate
  {
    var q := 1000000 / sampleRate;
    var m := 1000000 % sampleRate;
    assert q * sampleRate + m == 1000000 && 0 <= m < sampleRate;
    assert (q + 1) * sampleRate == q * sampleRate + sampleRate;
  }

  class AudioObject {
    /** `enabledAUDIO`. */
    var enabled: bool
    /** `txPacketSize`: the frame size `usb_audio_init` returned. */
    var txPacketSize: nat
    /** `samplePeriod`. */
    var samplePeriod: uint16

    constructor()
      ensures !enabled && txPacketSize == 0 && samplePeriod == 0
    {
      enabled := false;
      txPacketSize := 0;
      samplePeriod := 0;
    }

    /** `getSamplePeriod`: the stored period through a `uint8` result. */
    function GetSamplePeriod(): (r: byte)
      reads this
      ensures r == samplePeriod % 0x100
      ensures samplePeriod < 0x100 ==> r == samplePeriod
    {
      U8(samplePeriod)
    }

    /**
     * `begin`: nothing when already enabled; otherwise configure the part,
     * keep the frame size it returns, derive the sample period and mark the
     * object enabled.
     */
    method Begin(part: AudioPart, codes: AudioCodes, partType: uint16, sampleRate: uint16)
      requires ValidCodes(codes) && sampleRate != 0
      modifies this, part
      ensures old(enabled) ==> txPacketSize == old(txPacketSize) && samplePeriod == old(samplePeriod)
      ensures old(enabled) ==> part.bufferSize == old(part.bufferSize) && part.sampleRate == old(part.sampleRate)
      ensures !old(enabled) ==> samplePeriod == SamplePeriod(sampleRate)
      ensures !old(enabled) && SupportedClass(codes, partType / 0x100 * 0x100) ==>
        txPacketSize == part.bufferSize && part.sampleRate == sampleRate
      ensures !old(enabled) && !SupportedClass(codes, partType / 0x100 * 0x100) ==> txPacketSize == 0
      ensures enabled
    {
      if enabled {
        return;
      }
      var size := part.Init(codes, partType, sampleRate);
      txPacketSize := size;
      samplePeriod := SamplePeriod(sampleRate);
      enabled := true;
    }

    /** `USBAUDIO::init`, run when the part is registered: the endpoint size follows `txPacketSize`. */
    method InitPart(part: AudioPart)
      requires txPacketSize < 0x1_0000_0000
      modifies part
      ensures var s := if txPacketSize == 0 || txPacketSize > part.bufferSize then part.bufferSize else txPacketSize;
        part.epBufferSize == if part.endpoints == Some(In) then 2 * s else s
    {
      part.SetEPSize(txPacketSize);
    }

    /** `end`: clears the flag when it was set. */
    method End()
      modifies this
      ensures !enabled
      ensures txPacketSize == old(txPacketSize) && samplePeriod == old(samplePeriod)
    {
      if enabled {
        enabled := false;
      }
    }
  }
}
