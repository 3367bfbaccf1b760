/** Codes and format parameters of the USB Audio Class 1.0 microphone
    (usb_audio_uac1.h), the interface numbers and endpoint address it is wired
    to (usb_descriptors.h), and the byte arithmetic the descriptor tables use
    to split multi-byte codes into little-endian fields. */
module Uac1 {

  /** One element of a `uint8_t` descriptor table. */
  type Byte = b: int | 0 <= b < 0x100

  // ---------------------------------------------------------------------------
  // Byte arithmetic of the table initializers
  // ---------------------------------------------------------------------------

  /** The byte a `uint8_t` table keeps of a non-negative constant expression:
      `v & 0xFF`, and also the implicit narrowing of `v >> 8` or `v >> 16`. */
  function LowByte(v: nat): Byte
  {
    v % 0x100
  }

  /** A little-endian 16-bit field, as a USB host reads it. */
  function Le16(lo: Byte, hi: Byte): (v: nat)
    ensures v < 0x1_0000
  {
    lo + 0x100 * hi
  }

  /** A little-endian 24-bit field (the `tSamFreq` of a format descriptor). */
  function Le24(b0: Byte, b1: Byte, b2: Byte): (v: nat)
    ensures v < 0x100_0000
  {
    b0 + 0x100 * b1 + 0x1_0000 * b2
  }

  /** Splitting a 16-bit value as `v & 0xFF`, `v >> 8` loses nothing. */
  lemma Le16Split(v: nat)
    requires v < 0x1_0000
    ensures Le16(LowByte(v), LowByte(v / 0x100)) == v
  {
  }

  /** Splitting a 24-bit value as `v & 0xFF`, `(v >> 8) & 0xFF`,
      `(v >> 16) & 0xFF` loses nothing. */
  lemma Le24Split(v: nat)
    requires v < 0x100_0000
    ensures Le24(LowByte(v), LowByte(v / 0x100), LowByte(v / 0x1_0000)) == v
  {
  }

  /** Reading two bytes as a 16-bit field and splitting it again gives the
      same two bytes. */
  lemma Le16Bytes(lo: Byte, hi: Byte)
    ensures LowByte(Le16(lo, hi)) == lo && LowByte(Le16(lo, hi) / 0x100) == hi
  {
    var v := Le16(lo, hi);
    assert v == hi * 0x100 + lo;
    assert v / 0x100 == hi;
  }

  /** Reading three bytes as a 24-bit field and splitting it again gives the
      same three bytes. */
  lemma Le24Bytes(b0: Byte, b1: Byte, b2: Byte)
    ensures LowByte(Le24(b0, b1, b2)) == b0
    ensures LowByte(Le24(b0, b1, b2) / 0x100) == b1
    ensures LowByte(Le24(b0, b1, b2) / 0x1_0000) == b2
  {
    var v := Le24(b0, b1, b2);
    assert v == (b2 * 0x100 + b1) * 0x100 + b0;
    assert v / 0x100 == b2 * 0x100 + b1;
    assert v / 0x1_0000 == b2;
  }

  // ---------------------------------------------------------------------------
  // Class-specific descriptor types, subclasses and subtypes
  // ---------------------------------------------------------------------------

  const USB_AUDIO_DT_CS_INTERFACE: Byte := 0x24
  const USB_AUDIO_DT_CS_ENDPOINT: Byte := 0x25
  const USB_DT_CS_INTERFACE: Byte := USB_AUDIO_DT_CS_INTERFACE
  const USB_DT_CS_ENDPOINT: Byte := USB_AUDIO_DT_CS_ENDPOINT

  const USB_AUDIO_SUBCLASS_AUDIOCONTROL: Byte := 0x01
  const USB_AUDIO_SUBCLASS_AUDIOSTREAMING: Byte := 0x02

  const USB_AUDIO_SUBTYPE_AC_HEADER: Byte := 0x01
  const USB_AUDIO_SUBTYPE_AC_INPUT_TERMINAL: Byte := 0x02
  const USB_AUDIO_SUBTYPE_AC_OUTPUT_TERMINAL: Byte := 0x03
  const USB_AUDIO_SUBTYPE_AC_FEATURE_UNIT: Byte := 0x06

  const USB_AUDIO_SUBTYPE_AS_GENERAL: Byte := 0x01
  const USB_AUDIO_SUBTYPE_AS_FORMAT_TYPE: Byte := 0x02

  const USB_AUDIO_FORMAT_TYPE_I: Byte := 0x01
  const USB_AUDIO_FORMAT_I_PCM: nat := 0x0001

  const USB_AUDIO_TERMINAL_STREAMING: nat := 0x0101
  const USB_AUDIO_TERMINAL_MICROPHONE: nat := 0x0201

  const USB_AUDIO_SUBTYPE_EP_GENERAL: Byte := 0x01

  const USB_CLASS_AUDIO: Byte := 0x01
  const USB_AUDIO_BCD_VERSION_1_00: nat := 0x0100

  // ---------------------------------------------------------------------------
  // Topology IDs and format parameters
  // ---------------------------------------------------------------------------

  const AUDIO_INPUT_TERM_ID: Byte := 0x01
  const AUDIO_FEATURE_UNIT_ID: Byte := 0x02
  const AUDIO_OUTPUT_TERM_ID: Byte := 0x03

  const AUDIO_SAMPLE_RATE_HZ: nat := 48000
  const AUDIO_NUM_CHANNELS: nat := 1
  const AUDIO_BITS_PER_SAMPLE: nat := 16
  const AUDIO_BYTES_PER_SAMPLE: nat := AUDIO_BITS_PER_SAMPLE / 8

  /** Bytes per 1 ms full-speed frame: Fs * channels * bytes-per-sample / 1000,
      with C's truncating integer division (all operands are positive). */
  const AUDIO_PACKET_SIZE: nat :=
    (AUDIO_SAMPLE_RATE_HZ * AUDIO_NUM_CHANNELS * AUDIO_BYTES_PER_SAMPLE) / 1000

  // ---------------------------------------------------------------------------
  // Interface numbers and endpoint address (usb_descriptors.h)
  // ---------------------------------------------------------------------------

  const IFACE_AUDIO_CONTROL: Byte := 0
  const IFACE_AUDIO_STREAM: Byte := 1
  const EP_AUDIO_IN: Byte := 0x81

  // ---------------------------------------------------------------------------
  // Facts about the constants
  // ---------------------------------------------------------------------------

  /** The 16-bit codes the tables split into two bytes recombine exactly. */
  lemma CodesSplitExactly()
    ensures Le16(LowByte(USB_AUDIO_BCD_VERSION_1_00), LowByte(USB_AUDIO_BCD_VERSION_1_00 / 0x100)) == 0x0100
    ensures Le16(LowByte(USB_AUDIO_FORMAT_I_PCM), LowByte(USB_AUDIO_FORMAT_I_PCM / 0x100)) == 0x0001
    ensures Le16(LowByte(USB_AUDIO_TERMINAL_MICROPHONE), LowByte(USB_AUDIO_TERMINAL_MICROPHONE / 0x100)) == 0x0201
    ensures Le16(LowByte(USB_AUDIO_TERMINAL_STREAMING), LowByte(USB_AUDIO_TERMINAL_STREAMING / 0x100)) == 0x0101
  {
    Le16Split(USB_AUDIO_BCD_VERSION_1_00);
    Le16Split(USB_AUDIO_FORMAT_I_PCM);
    Le16Split(USB_AUDIO_TERMINAL_MICROPHONE);
    Le16Split(USB_AUDIO_TERMINAL_STREAMING);
  }

  /** The microphone is an input terminal type (0x02xx block) and the
      streaming terminal a USB terminal type (0x01xx block). */
  lemma TerminalTypesInTheirBlocks()
    ensures USB_AUDIO_TERMINAL_MICROPHONE / 0x100 == 0x02
    ensures USB_AUDIO_TERMINAL_STREAMING / 0x100 == 0x01
  {
  }

  /** Entity IDs are non-zero (zero means "undefined" in UAC1) and pairwise
      distinct. */
  lemma TopologyIdsDistinct()
    ensures AUDIO_INPUT_TERM_ID != 0 && AUDIO_FEATURE_UNIT_ID != 0 && AUDIO_OUTPUT_TERM_ID != 0
    ensures AUDIO_INPUT_TERM_ID != AUDIO_FEATURE_UNIT_ID
    ensures AUDIO_FEATURE_UNIT_ID != AUDIO_OUTPUT_TERM_ID
    ensures AUDIO_INPUT_TERM_ID != AUDIO_OUTPUT_TERM_ID
  {
  }

  /** 16 bits per sample is exactly two bytes, so the resolution field never
      exceeds the container (bits-per-sample <= 8 * bytes-per-sample holds
      with equality). */
  lemma BytesPerSampleExact()
    ensures AUDIO_BITS_PER_SAMPLE % 8 == 0
    ensures AUDIO_BYTES_PER_SAMPLE == 2
    ensures AUDIO_BITS_PER_SAMPLE == 8 * AUDIO_BYTES_PER_SAMPLE
  {
  }

  /** The packet size is 96 and the division by 1000 truncates nothing. */
  lemma PacketSizeExact()
    ensures (AUDIO_SAMPLE_RATE_HZ * AUDIO_NUM_CHANNELS * AUDIO_BYTES_PER_SAMPLE) % 1000 == 0
    ensures AUDIO_PACKET_SIZE == 96
  {
  }

  /** One packet holds whole samples: 48 of them, one millisecond at 48 kHz
      mono. */
  lemma PacketIsOneMillisecond()
    ensures AUDIO_PACKET_SIZE % (AUDIO_NUM_CHANNELS * AUDIO_BYTES_PER_SAMPLE) == 0
    ensures AUDIO_PACKET_SIZE / 2 == 48
    ensures (AUDIO_PACKET_SIZE / (AUDIO_NUM_CHANNELS * AUDIO_BYTES_PER_SAMPLE)) * 1000 == AUDIO_SAMPLE_RATE_HZ
  {
  }

  /** The sample rate fits the three bytes of `tSamFreq`. */
  lemma SampleRateFits24Bits()
    ensures AUDIO_SAMPLE_RATE_HZ < 0x100_0000
    ensures Le24(LowByte(AUDIO_SAMPLE_RATE_HZ), LowByte(AUDIO_SAMPLE_RATE_HZ / 0x100),
                 LowByte(AUDIO_SAMPLE_RATE_HZ / 0x1_0000)) == AUDIO_SAMPLE_RATE_HZ
  {
    Le24Split(AUDIO_SAMPLE_RATE_HZ);
  }
}
