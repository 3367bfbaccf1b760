/** The descriptor topology of the microphone (usb_descriptors.c): the three
    class-specific byte blocks, a walker that splits a block by its
    length prefixes, a decoder of each piece into a UAC1 entity together with
    the encoder it inverts, the entity graph the Audio Control block
    describes, and the device, interface and configuration records. */
module Descriptors {
  import opened Uac1

  datatype Option<T> = None | Some(value: T)

  // ===========================================================================
  // The class-specific byte blocks, as written
  // ===========================================================================

  /** `audio_ac_cs`: Header, Input Terminal, Feature Unit, Output Terminal,
      written as the concatenation of its four commented sections. */
  const AudioAcCs: seq<Byte> := AcHeaderBytes + AcInputTerminalBytes + AcFeatureUnitBytes + AcOutputTerminalBytes

  /** Class-specific AC interface header. */
  const AcHeaderBytes: seq<Byte> := [
    9, USB_DT_CS_INTERFACE, USB_AUDIO_SUBTYPE_AC_HEADER,
    LowByte(USB_AUDIO_BCD_VERSION_1_00),
    LowByte(USB_AUDIO_BCD_VERSION_1_00 / 0x100),
    0x27, 0x00,
    0x01,
    IFACE_AUDIO_STREAM
  ]

  /** Input terminal (microphone). */
  const AcInputTerminalBytes: seq<Byte> := [
    12, USB_DT_CS_INTERFACE, USB_AUDIO_SUBTYPE_AC_INPUT_TERMINAL,
    AUDIO_INPUT_TERM_ID,
    LowByte(USB_AUDIO_TERMINAL_MICROPHONE),
    LowByte(USB_AUDIO_TERMINAL_MICROPHONE / 0x100),
    0x00,
    0x01,
    0x00, 0x00,
    0x00,
    0x00
  ]

  /** Feature unit (no controls). */
  const AcFeatureUnitBytes: seq<Byte> := [
    9, USB_DT_CS_INTERFACE, USB_AUDIO_SUBTYPE_AC_FEATURE_UNIT,
    AUDIO_FEATURE_UNIT_ID,
    AUDIO_INPUT_TERM_ID,
    0x01,
    0x00,
    0x00,
    0x00
  ]

  /** Output terminal (USB streaming). */
  const AcOutputTerminalBytes: seq<Byte> := [
    9, USB_DT_CS_INTERFACE, USB_AUDIO_SUBTYPE_AC_OUTPUT_TERMINAL,
    AUDIO_OUTPUT_TERM_ID,
    LowByte(USB_AUDIO_TERMINAL_STREAMING),
    LowByte(USB_AUDIO_TERMINAL_STREAMING / 0x100),
    0x00,
    AUDIO_FEATURE_UNIT_ID,
    0x00
  ]

  /** `audio_as_alt1_cs`: AS General and the Type I format descriptor. */
  const AudioAsAlt1Cs: seq<Byte> := AsGeneralBytes + AsFormatTypeBytes

  /** AS general. */
  const AsGeneralBytes: seq<Byte> := [
    7, USB_DT_CS_INTERFACE, USB_AUDIO_SUBTYPE_AS_GENERAL,
    AUDIO_OUTPUT_TERM_ID,
    0x00,
    LowByte(USB_AUDIO_FORMAT_I_PCM),
    LowByte(USB_AUDIO_FORMAT_I_PCM / 0x100)
  ]

  /** Type I format. */
  const AsFormatTypeBytes: seq<Byte> := [
    11, USB_DT_CS_INTERFACE, USB_AUDIO_SUBTYPE_AS_FORMAT_TYPE,
    USB_AUDIO_FORMAT_TYPE_I,
    AUDIO_NUM_CHANNELS,
    AUDIO_BYTES_PER_SAMPLE,
    AUDIO_BITS_PER_SAMPLE,
    0x01,
    LowByte(AUDIO_SAMPLE_RATE_HZ),
    LowByte(AUDIO_SAMPLE_RATE_HZ / 0x100),
    LowByte(AUDIO_SAMPLE_RATE_HZ / 0x1_0000)
  ]

  /** `audio_cs_ep`: the class-specific isochronous endpoint descriptor. */
  const AudioCsEp: seq<Byte> := [
    7, USB_DT_CS_ENDPOINT, USB_AUDIO_SUBTYPE_EP_GENERAL,
    0x00,
    0x00,
    0x00, 0x00
  ]

  // ===========================================================================
  // Walking a block by its length prefixes
  // ===========================================================================

  /** A descriptor whose first byte, bLength, is its own size; every USB
      descriptor holds at least bLength and bDescriptorType. */
  predicate Framed(d: seq<Byte>)
  {
    |d| >= 2 && d[0] == |d|
  }

  predicate AllFramed(ds: seq<seq<Byte>>)
  {
    forall i | 0 <= i < |ds| :: Framed(ds[i])
  }

  function Concat(ds: seq<seq<Byte>>): seq<Byte>
  {
    if ds == [] then [] else ds[0] + Concat(ds[1..])
  }

  /** Splits a block into descriptors the way a host does: read bLength,
      take that many bytes, continue after them. Fails on a bLength that
      cannot make progress or runs past the end of the block. */
  function Walk(block: seq<Byte>): (r: Option<seq<seq<Byte>>>)
    ensures r.Some? ==> AllFramed(r.value) && Concat(r.value) == block
    decreases |block|
  {
    if block == [] then Some([])
    else if block[0] < 2 || |block| < block[0] then None
    else
      match Walk(block[block[0]..])
      case None => None
      case Some(rest) =>
        assert ([block[..block[0]]] + rest)[1..] == rest;
        Some([block[..block[0]]] + rest)
  }

  /** Any tiling of a block by framed descriptors is exactly what the walker
      finds: walking consumes the block exactly, and the tiling is unique. */
  lemma {:induction false} WalkTiling(ds: seq<seq<Byte>>)
    requires AllFramed(ds)
    ensures Walk(Concat(ds)) == Some(ds)
  {
    if ds != [] {
      var b := Concat(ds);
      assert AllFramed(ds[1..]) by {
        forall i | 0 <= i < |ds[1..]| ensures Framed(ds[1..][i]) {
          assert ds[1..][i] == ds[i + 1];
        }
      }
      WalkTiling(ds[1..]);
      assert b[..ds[0][0]] == ds[0];
      assert b[ds[0][0]..] == Concat(ds[1..]);
      assert [ds[0]] + ds[1..] == ds;
    }
  }

  /** The walker fails only on blocks that no sequence of framed descriptors
      tiles. */
  lemma WalkFailsOnlyUntiled(block: seq<Byte>)
    requires Walk(block).None?
    ensures forall ds :: AllFramed(ds) ==> Concat(ds) != block
  {
    forall ds | AllFramed(ds) ensures Concat(ds) != block {
      WalkTiling(ds);
    }
  }

  // ===========================================================================
  // UAC1 class-specific descriptors as entities
  // ===========================================================================

  /** Where a class-specific block is attached; it decides how subtype codes
      are read (AC header and AS general share the code 0x01). */
  datatype Context = AudioControl | AudioStreaming | IsoEndpoint

  datatype ClassDescriptor =
    | AcHeader(bcdAdc: nat, totalLength: nat, interfaceNrs: seq<Byte>)
    | InputTerminal(terminalId: Byte, terminalType: nat, assocTerminal: Byte, nrChannels: Byte,
                    channelConfig: nat, channelNames: Byte, terminalName: Byte)
    | FeatureUnit(unitId: Byte, sourceId: Byte, controlSize: Byte, controls: seq<Byte>, featureName: Byte)
    | OutputTerminal(terminalId: Byte, terminalType: nat, assocTerminal: Byte, sourceId: Byte, terminalName: Byte)
    | AsGeneral(terminalLink: Byte, delay: Byte, formatTag: nat)
    | FormatTypeI(nrChannels: Byte, subframeSize: Byte, bitResolution: Byte, samFreqType: Byte, samFreqs: seq<nat>)
    | EpGeneral(attributes: Byte, lockDelayUnits: Byte, lockDelay: nat)

  function ContextOf(e: ClassDescriptor): Context
  {
    match e
    case AcHeader(_, _, _) => AudioControl
    case InputTerminal(_, _, _, _, _, _, _) => AudioControl
    case FeatureUnit(_, _, _, _, _) => AudioControl
    case OutputTerminal(_, _, _, _, _) => AudioControl
    case AsGeneral(_, _, _) => AudioStreaming
    case FormatTypeI(_, _, _, _, _) => AudioStreaming
    case EpGeneral(_, _, _) => IsoEndpoint
  }

  /** bLength as the class definitions give it: Audio Device Class 1.0
      section 4.3.2 (header, 8+n), 4.3.2.1 (input terminal, 12), 4.3.2.2
      (output terminal, 9), 4.3.2.5 (feature unit, 7+(ch+1)*n, here 7 plus
      the control bytes), 4.5.2 (AS general, 7), 4.6.1.2 (class-specific
      isochronous endpoint, 7), and Audio Data Formats 1.0 section 2.2.5
      (Type I format, 8+3*ns). */
  function StdLength(e: ClassDescriptor): nat
  {
    match e
    case AcHeader(_, _, nrs) => 8 + |nrs|
    case InputTerminal(_, _, _, _, _, _, _) => 12
    case FeatureUnit(_, _, _, controls, _) => 7 + |controls|
    case OutputTerminal(_, _, _, _, _) => 9
    case AsGeneral(_, _, _) => 7
    case FormatTypeI(_, _, _, _, freqs) => 8 + 3 * |freqs|
    case EpGeneral(_, _, _) => 7
  }

  /** Number of 3-byte frequencies a Type I descriptor carries: bSamFreqType
      discrete ones, or a lower and an upper bound when it is 0. */
  function FreqCount(samFreqType: Byte): nat
  {
    if samFreqType == 0 then 2 else samFreqType
  }

  /** The fields fit their byte widths and the length fits bLength. */
  predicate WellFormed(e: ClassDescriptor)
  {
    && StdLength(e) < 0x100
    && match e
       case AcHeader(bcd, total, _) => bcd < 0x1_0000 && total < 0x1_0000
       case InputTerminal(_, tt, _, _, cfg, _, _) => tt < 0x1_0000 && cfg < 0x1_0000
       case FeatureUnit(_, _, n, controls, _) => n >= 1 && |controls| % n == 0
       case OutputTerminal(_, tt, _, _, _) => tt < 0x1_0000
       case AsGeneral(_, _, tag) => tag < 0x1_0000
       case FormatTypeI(_, _, _, t, freqs) => |freqs| == FreqCount(t) && Fit24(freqs)
       case EpGeneral(_, _, delay) => delay < 0x1_0000
  }

  predicate AllWellFormed(es: seq<ClassDescriptor>)
  {
    forall i | 0 <= i < |es| :: WellFormed(es[i])
  }

  predicate Fit24(fs: seq<nat>)
  {
    forall i | 0 <= i < |fs| :: fs[i] < 0x100_0000
  }

  function Split16(v: nat): seq<Byte>
    requires v < 0x1_0000
  {
    [LowByte(v), LowByte(v / 0x100)]
  }

  /** The 3-byte little-endian encoding of a list of sample frequencies. */
  function Split24s(fs: seq<nat>): (b: seq<Byte>)
    requires Fit24(fs)
    ensures |b| == 3 * |fs|
  {
    if fs == [] then []
    else [LowByte(fs[0]), LowByte(fs[0] / 0x100), LowByte(fs[0] / 0x1_0000)] + Split24s(fs[1..])
  }

  /** Reads consecutive 3-byte little-endian frequencies. */
  function Join24s(b: seq<Byte>): (fs: seq<nat>)
    requires |b| % 3 == 0
    ensures |fs| == |b| / 3 && Fit24(fs)
  {
    if b == [] then [] else [Le24(b[0], b[1], b[2])] + Join24s(b[3..])
  }

  lemma {:induction false} Join24sSplit24s(fs: seq<nat>)
    requires Fit24(fs)
    ensures Join24s(Split24s(fs)) == fs
  {
    if fs != [] {
      Le24Split(fs[0]);
      Join24sSplit24s(fs[1..]);
      assert Split24s(fs)[3..] == Split24s(fs[1..]);
    }
  }

  lemma {:induction false} Split24sJoin24s(b: seq<Byte>)
    requires |b| % 3 == 0
    ensures Split24s(Join24s(b)) == b
  {
    if b != [] {
      Split24sJoin24s(b[3..]);
      Le24Bytes(b[0], b[1], b[2]);
      assert Join24s(b)[1..] == Join24s(b[3..]);
      assert b == b[..3] + b[3..];
    }
  }

  /** The bytes of a descriptor, bLength first. */
  function Encode(e: ClassDescriptor): (d: seq<Byte>)
    requires WellFormed(e)
    ensures Framed(d) && |d| == StdLength(e)
  {
    match e
    case AcHeader(bcd, total, nrs) =>
      [8 + |nrs|, USB_DT_CS_INTERFACE, USB_AUDIO_SUBTYPE_AC_HEADER]
      + Split16(bcd) + Split16(total) + [|nrs|] + nrs
    case InputTerminal(id, tt, assoc, nch, cfg, names, name) =>
      [12, USB_DT_CS_INTERFACE, USB_AUDIO_SUBTYPE_AC_INPUT_TERMINAL, id]
      + Split16(tt) + [assoc, nch] + Split16(cfg) + [names, name]
    case FeatureUnit(id, src, n, controls, name) =>
      [7 + |controls|, USB_DT_CS_INTERFACE, USB_AUDIO_SUBTYPE_AC_FEATURE_UNIT, id, src, n]
      + controls + [name]
    case OutputTerminal(id, tt, assoc, src, name) =>
      [9, USB_DT_CS_INTERFACE, USB_AUDIO_SUBTYPE_AC_OUTPUT_TERMINAL, id]
      + Split16(tt) + [assoc, src, name]
    case AsGeneral(link, delay, tag) =>
      [7, USB_DT_CS_INTERFACE, USB_AUDIO_SUBTYPE_AS_GENERAL, link, delay] + Split16(tag)
    case FormatTypeI(nch, sub, bits, t, freqs) =>
      [8 + 3 * |freqs|, USB_DT_CS_INTERFACE, USB_AUDIO_SUBTYPE_AS_FORMAT_TYPE, USB_AUDIO_FORMAT_TYPE_I,
       nch, sub, bits, t]
      + Split24s(freqs)
    case EpGeneral(attr, units, delay) =>
      [7, USB_DT_CS_ENDPOINT, USB_AUDIO_SUBTYPE_EP_GENERAL, attr, units] + Split16(delay)
  }

  /** Reads one framed piece of a block attached in context `ctx`. It
      accepts exactly the encodings of well-formed entities of that context:
      every entity it returns encodes back to the bytes it read. */
  function Decode(ctx: Context, d: seq<Byte>): (r: Option<ClassDescriptor>)
    ensures r.Some? ==> WellFormed(r.value) && ContextOf(r.value) == ctx && Encode(r.value) == d
  {
    if !Framed(d) || |d| < 3 then None
    else
      match ctx
      case AudioControl =>
        if d[1] != USB_DT_CS_INTERFACE then None
        else if d[2] == USB_AUDIO_SUBTYPE_AC_HEADER then DecodeHeader(d)
        else if d[2] == USB_AUDIO_SUBTYPE_AC_INPUT_TERMINAL then DecodeInputTerminal(d)
        else if d[2] == USB_AUDIO_SUBTYPE_AC_OUTPUT_TERMINAL then DecodeOutputTerminal(d)
        else if d[2] == USB_AUDIO_SUBTYPE_AC_FEATURE_UNIT then DecodeFeatureUnit(d)
        else None
      case AudioStreaming =>
        if d[1] != USB_DT_CS_INTERFACE then None
        else if d[2] == USB_AUDIO_SUBTYPE_AS_GENERAL then DecodeAsGeneral(d)
        else if d[2] == USB_AUDIO_SUBTYPE_AS_FORMAT_TYPE then DecodeFormatType(d)
        else None
      case IsoEndpoint =>
        if d[1] == USB_DT_CS_ENDPOINT && d[2] == USB_AUDIO_SUBTYPE_EP_GENERAL then DecodeEpGeneral(d)
        else None
  }

  /** Header: bLength 8 + bInCollection, then the interface numbers. */
  function DecodeHeader(d: seq<Byte>): (r: Option<ClassDescriptor>)
    requires Framed(d) && |d| >= 3 && d[1] == USB_DT_CS_INTERFACE && d[2] == USB_AUDIO_SUBTYPE_AC_HEADER
    ensures r.Some? ==> r.value.AcHeader? && WellFormed(r.value) && Encode(r.value) == d
  {
    if |d| >= 8 && |d| == 8 + d[7] as int then
      var e := AcHeader(Le16(d[3], d[4]), Le16(d[5], d[6]), d[8..]);
      Le16Bytes(d[3], d[4]);
      Le16Bytes(d[5], d[6]);
      assert d == d[..8] + d[8..];
      assert Encode(e) == d;
      Some(e)
    else None
  }

  function DecodeInputTerminal(d: seq<Byte>): (r: Option<ClassDescriptor>)
    requires Framed(d) && |d| >= 3 && d[1] == USB_DT_CS_INTERFACE && d[2] == USB_AUDIO_SUBTYPE_AC_INPUT_TERMINAL
    ensures r.Some? ==> r.value.InputTerminal? && WellFormed(r.value) && Encode(r.value) == d
  {
    if |d| == 12 then
      var e := InputTerminal(d[3], Le16(d[4], d[5]), d[6], d[7], Le16(d[8], d[9]), d[10], d[11]);
      Le16Bytes(d[4], d[5]);
      Le16Bytes(d[8], d[9]);
      assert Encode(e) == d;
      Some(e)
    else None
  }

  function DecodeOutputTerminal(d: seq<Byte>): (r: Option<ClassDescriptor>)
    requires Framed(d) && |d| >= 3 && d[1] == USB_DT_CS_INTERFACE && d[2] == USB_AUDIO_SUBTYPE_AC_OUTPUT_TERMINAL
    ensures r.Some? ==> r.value.OutputTerminal? && WellFormed(r.value) && Encode(r.value) == d
  {
    if |d| == 9 then
      var e := OutputTerminal(d[3], Le16(d[4], d[5]), d[6], d[7], d[8]);
      Le16Bytes(d[4], d[5]);
      assert Encode(e) == d;
      Some(e)
    else None
  }

  /** Feature unit: bControlSize >= 1 and whole control bitmaps between
      byte 6 and the trailing iFeature. */
  function DecodeFeatureUnit(d: seq<Byte>): (r: Option<ClassDescriptor>)
    requires Framed(d) && |d| >= 3 && d[1] == USB_DT_CS_INTERFACE && d[2] == USB_AUDIO_SUBTYPE_AC_FEATURE_UNIT
    ensures r.Some? ==> r.value.FeatureUnit? && WellFormed(r.value) && Encode(r.value) == d
  {
    if |d| >= 7 && d[5] >= 1 && (|d| - 7) % d[5] == 0 then
      var e := FeatureUnit(d[3], d[4], d[5], d[6..|d| - 1], d[|d| - 1]);
      assert Encode(e) == d;
      Some(e)
    else None
  }

  function DecodeAsGeneral(d: seq<Byte>): (r: Option<ClassDescriptor>)
    requires Framed(d) && |d| >= 3 && d[1] == USB_DT_CS_INTERFACE && d[2] == USB_AUDIO_SUBTYPE_AS_GENERAL
    ensures r.Some? ==> r.value.AsGeneral? && WellFormed(r.value) && Encode(r.value) == d
  {
    if |d| == 7 then
      var e := AsGeneral(d[3], d[4], Le16(d[5], d[6]));
      Le16Bytes(d[5], d[6]);
      assert Encode(e) == d;
      Some(e)
    else None
  }

  /** Only the Type I format is read; its length follows bSamFreqType. */
  function DecodeFormatType(d: seq<Byte>): (r: Option<ClassDescriptor>)
    requires Framed(d) && |d| >= 3 && d[1] == USB_DT_CS_INTERFACE && d[2] == USB_AUDIO_SUBTYPE_AS_FORMAT_TYPE
    ensures r.Some? ==> r.value.FormatTypeI? && WellFormed(r.value) && Encode(r.value) == d
  {
    if |d| >= 8 && d[3] == USB_AUDIO_FORMAT_TYPE_I && |d| == 8 + 3 * FreqCount(d[7]) then
      var e := FormatTypeI(d[4], d[5], d[6], d[7], Join24s(d[8..]));
      Split24sJoin24s(d[8..]);
      assert Encode(e) == d;
      Some(e)
    else None
  }

  function DecodeEpGeneral(d: seq<Byte>): (r: Option<ClassDescriptor>)
    requires Framed(d) && |d| >= 3 && d[1] == USB_DT_CS_ENDPOINT && d[2] == USB_AUDIO_SUBTYPE_EP_GENERAL
    ensures r.Some? ==> r.value.EpGeneral? && WellFormed(r.value) && Encode(r.value) == d
  {
    if |d| == 7 then
      var e := EpGeneral(d[3], d[4], Le16(d[5], d[6]));
      Le16Bytes(d[5], d[6]);
      assert Encode(e) == d;
      Some(e)
    else None
  }

  /** Every well-formed entity survives encoding and decoding. */
  lemma DecodeEncode(e: ClassDescriptor)
    requires WellFormed(e)
    ensures Decode(ContextOf(e), Encode(e)) == Some(e)
  {
    var d := Encode(e);
    match e
    case AcHeader(bcd, total, nrs) =>
      Le16Split(bcd);
      Le16Split(total);
      assert d[8..] == nrs;
    case InputTerminal(_, tt, _, _, cfg, _, _) =>
      Le16Split(tt);
      Le16Split(cfg);
    case FeatureUnit(_, _, _, controls, _) =>
      assert d[6..|d| - 1] == controls;
    case OutputTerminal(_, tt, _, _, _) =>
      Le16Split(tt);
    case AsGeneral(_, _, tag) =>
      Le16Split(tag);
    case FormatTypeI(_, _, _, _, freqs) =>
      assert d[8..] == Split24s(freqs);
      Join24sSplit24s(freqs);
    case EpGeneral(_, _, delay) =>
      Le16Split(delay);
  }

  // ===========================================================================
  // Whole blocks
  // ===========================================================================

  /** The bytes of a block of entities, one after the other. */
  function Serialize(es: seq<ClassDescriptor>): seq<Byte>
    requires AllWellFormed(es)
  {
    if es == [] then [] else Encode(es[0]) + Serialize(es[1..])
  }

  function Encodings(es: seq<ClassDescriptor>): (ds: seq<seq<Byte>>)
    requires AllWellFormed(es)
    ensures |ds| == |es| && AllFramed(ds)
  {
    seq(|es|, i requires 0 <= i < |es| && AllWellFormed(es) => Encode(es[i]))
  }

  lemma {:induction false} SerializeIsConcat(es: seq<ClassDescriptor>)
    requires AllWellFormed(es)
    ensures Serialize(es) == Concat(Encodings(es))
  {
    if es != [] {
      SerializeIsConcat(es[1..]);
      assert Encodings(es)[1..] == Encodings(es[1..]);
    }
  }

  /** Decodes each piece the walker produced. */
  function DecodeAll(ctx: Context, ds: seq<seq<Byte>>): (r: Option<seq<ClassDescriptor>>)
    ensures r.Some? ==> |r.value| == |ds| && AllWellFormed(r.value)
    ensures r.Some? ==> forall i | 0 <= i < |ds| :: ContextOf(r.value[i]) == ctx && Encode(r.value[i]) == ds[i]
  {
    if ds == [] then Some([])
    else
      match (Decode(ctx, ds[0]), DecodeAll(ctx, ds[1..]))
      case (Some(e), Some(es)) =>
        assert forall i | 0 < i < |ds| :: ([e] + es)[i] == es[i - 1] && ds[i] == ds[1..][i - 1];
        Some([e] + es)
      case _ => None
  }

  /** Walks a block and decodes every piece. What it returns serializes back
      to the block, byte for byte. */
  function DecodeBlock(ctx: Context, block: seq<Byte>): (r: Option<seq<ClassDescriptor>>)
    ensures r.Some? ==> AllWellFormed(r.value) && Serialize(r.value) == block
    ensures r.Some? ==> forall i | 0 <= i < |r.value| :: ContextOf(r.value[i]) == ctx
  {
    match Walk(block)
    case None => None
    case Some(ds) =>
      var r := DecodeAll(ctx, ds);
      if r.Some? then
        SerializeIsConcat(r.value);
        assert Encodings(r.value) == ds;
        r
      else r
  }

  /** Serializing well-formed entities of one context and decoding the
      result gives them back: the block decoder inverts the serializer. */
  lemma {:induction false} DecodeBlockSerialize(ctx: Context, es: seq<ClassDescriptor>)
    requires AllWellFormed(es)
    requires forall i | 0 <= i < |es| :: ContextOf(es[i]) == ctx
    ensures DecodeBlock(ctx, Serialize(es)) == Some(es)
  {
    SerializeIsConcat(es);
    WalkTiling(Encodings(es));
    DecodeAllEncodings(ctx, es);
  }

  lemma {:induction false} DecodeAllEncodings(ctx: Context, es: seq<ClassDescriptor>)
    requires AllWellFormed(es)
    requires forall i | 0 <= i < |es| :: ContextOf(es[i]) == ctx
    ensures DecodeAll(ctx, Encodings(es)) == Some(es)
  {
    if es != [] {
      var ds := Encodings(es);
      assert ds[0] == Encode(es[0]);
      assert ds[1..] == Encodings(es[1..]);
      DecodeEncode(es[0]);
      DecodeAllEncodings(ctx, es[1..]);
      assert DecodeAll(ctx, ds) == Some([es[0]] + es[1..]);
      assert [es[0]] + es[1..] == es;
    }
  }

  // ===========================================================================
  // The blocks as entities
  // ===========================================================================

  const AcEntities: seq<ClassDescriptor> := [
    AcHeader(USB_AUDIO_BCD_VERSION_1_00, 39, [IFACE_AUDIO_STREAM]),
    InputTerminal(AUDIO_INPUT_TERM_ID, USB_AUDIO_TERMINAL_MICROPHONE, 0, 1, 0, 0, 0),
    FeatureUnit(AUDIO_FEATURE_UNIT_ID, AUDIO_INPUT_TERM_ID, 1, [0, 0], 0),
    OutputTerminal(AUDIO_OUTPUT_TERM_ID, USB_AUDIO_TERMINAL_STREAMING, 0, AUDIO_FEATURE_UNIT_ID, 0)
  ]

  const AsEntities: seq<ClassDescriptor> := [
    AsGeneral(AUDIO_OUTPUT_TERM_ID, 0, USB_AUDIO_FORMAT_I_PCM),
    FormatTypeI(AUDIO_NUM_CHANNELS, AUDIO_BYTES_PER_SAMPLE, AUDIO_BITS_PER_SAMPLE, 1, [AUDIO_SAMPLE_RATE_HZ])
  ]

  const EpEntities: seq<ClassDescriptor> := [EpGeneral(0, 0, 0)]

  /** The Audio Control block cut at its commented section boundaries. */
  const AcPieces: seq<seq<Byte>> := [AcHeaderBytes, AcInputTerminalBytes, AcFeatureUnitBytes, AcOutputTerminalBytes]

  /** The Audio Streaming block cut at its commented section boundaries. */
  const AsPieces: seq<seq<Byte>> := [AsGeneralBytes, AsFormatTypeBytes]

  /** The sections of `audio_ac_cs` are framed, make up the block, and are
      the encodings of the four Audio Control entities. */
  lemma AcPiecesTile()
    ensures AllFramed(AcPieces) && Concat(AcPieces) == AudioAcCs
    ensures AllWellFormed(AcEntities) && Encodings(AcEntities) == AcPieces
  {
    assert Framed(AcPieces[0]) && Framed(AcPieces[1]) && Framed(AcPieces[2]) && Framed(AcPieces[3]);
    assert AcPieces[3..][1..] == [];
    assert Concat(AcPieces[3..]) == AcOutputTerminalBytes;
    assert AcPieces[2..][1..] == AcPieces[3..];
    assert Concat(AcPieces[2..]) == AcFeatureUnitBytes + AcOutputTerminalBytes;
    assert AcPieces[1..][1..] == AcPieces[2..];
    assert Concat(AcPieces[1..]) == AcInputTerminalBytes + (AcFeatureUnitBytes + AcOutputTerminalBytes);
    assert WellFormed(AcEntities[0]) && WellFormed(AcEntities[1]);
    assert WellFormed(AcEntities[2]) && WellFormed(AcEntities[3]);
    assert Encode(AcEntities[0]) == AcPieces[0];
    assert Encode(AcEntities[1]) == AcPieces[1];
    assert Encode(AcEntities[2]) == AcPieces[2];
    assert Encode(AcEntities[3]) == AcPieces[3];
  }

  /** The same for `audio_as_alt1_cs` and the two Audio Streaming entities. */
  lemma AsPiecesTile()
    ensures AllFramed(AsPieces) && Concat(AsPieces) == AudioAsAlt1Cs
    ensures AllWellFormed(AsEntities) && Encodings(AsEntities) == AsPieces
  {
    assert Framed(AsPieces[0]) && Framed(AsPieces[1]);
    assert AsPieces[1..][1..] == [];
    assert Concat(AsPieces[1..]) == AsFormatTypeBytes;
    assert WellFormed(AsEntities[0]) && WellFormed(AsEntities[1]);
    assert Encode(AsEntities[0]) == AsPieces[0];
    assert Split24s([AUDIO_SAMPLE_RATE_HZ]) == AsFormatTypeBytes[8..];
    assert Encode(AsEntities[1]) == AsPieces[1];
  }

  /** `audio_ac_cs` is exactly a header (UAC 1.0, bcdADC 0x0100, total
      length 39, one streaming interface), a mono microphone input terminal,
      a feature unit fed by it with no controls, and a USB streaming output
      terminal fed by the feature unit. */
  lemma AcBlockDecodes()
    ensures DecodeBlock(AudioControl, AudioAcCs) == Some(AcEntities)
  {
    AcPiecesTile();
    SerializeIsConcat(AcEntities);
    DecodeBlockSerialize(AudioControl, AcEntities);
  }

  /** `audio_as_alt1_cs` is exactly an AS general descriptor linked to the
      output terminal with PCM format, and a Type I format descriptor for
      one 48 kHz mono 16-bit stream. */
  lemma AsBlockDecodes()
    ensures DecodeBlock(AudioStreaming, AudioAsAlt1Cs) == Some(AsEntities)
  {
    AsPiecesTile();
    SerializeIsConcat(AsEntities);
    DecodeBlockSerialize(AudioStreaming, AsEntities);
  }

  /** `audio_cs_ep` is exactly one general endpoint descriptor with no
      pitch or sampling-frequency control and no lock delay. */
  lemma EpBlockDecodes()
    ensures DecodeBlock(IsoEndpoint, AudioCsEp) == Some(EpEntities)
  {
    assert WellFormed(EpEntities[0]);
    assert Encode(EpEntities[0]) == AudioCsEp;
    assert |Encodings(EpEntities)| == 1;
    assert Encodings(EpEntities) == [AudioCsEp];
    assert [AudioCsEp][1..] == [];
    assert Concat([AudioCsEp]) == AudioCsEp;
    SerializeIsConcat(EpEntities);
    DecodeBlockSerialize(IsoEndpoint, EpEntities);
  }

  /** Walking `audio_ac_cs` yields four descriptors of 9, 12, 9 and 9 bytes
      with subtypes header, input terminal, feature unit, output terminal,
      and each bLength is its section formula: 8 + bInCollection for the
      header, 7 + (nch + 1) * bControlSize for the feature unit with nch
      the input terminal's bNrChannels. */
  lemma AcBlockLayout()
    ensures Walk(AudioAcCs).Some?
    ensures var ds := Walk(AudioAcCs).value;
      && |ds| == 4
      && |ds[0]| == 9 && |ds[1]| == 12 && |ds[2]| == 9 && |ds[3]| == 9
      && ds[0][2] == USB_AUDIO_SUBTYPE_AC_HEADER
      && ds[1][2] == USB_AUDIO_SUBTYPE_AC_INPUT_TERMINAL
      && ds[2][2] == USB_AUDIO_SUBTYPE_AC_FEATURE_UNIT
      && ds[3][2] == USB_AUDIO_SUBTYPE_AC_OUTPUT_TERMINAL
      && ds[0][0] as int == 8 + ds[0][7] as int
      && ds[1][0] == 12
      && ds[2][0] as int == 7 + (ds[1][7] as int + 1) * ds[2][5] as int
      && ds[3][0] == 9
  {
    AcPiecesTile();
    WalkTiling(AcPieces);
  }

  /** The header's wTotalLength (bytes 0x27, 0x00) is the size of the whole
      block, which is the sum of the four bLengths. */
  lemma AcTotalLengthExact()
    ensures Le16(AudioAcCs[5], AudioAcCs[6]) == |AudioAcCs| == 39
    ensures |AudioAcCs| == AudioAcCs[0] as int + AudioAcCs[9] as int + AudioAcCs[21] as int + AudioAcCs[30] as int
    ensures TotalLengthConsistent(AcEntities)
  {
    AcPiecesTile();
    SerializeIsConcat(AcEntities);
  }

  /** A decoded Audio Control block starts with its header, and the header's
      total length is the serialized size of the header and all entities. */
  predicate TotalLengthConsistent(es: seq<ClassDescriptor>)
  {
    && AllWellFormed(es)
    && |es| >= 1
    && es[0].AcHeader?
    && es[0].totalLength == |Serialize(es)|
  }

  /** The AS block tiles as 7 + 11 bytes; the Type I bLength is
      8 + 3 * bSamFreqType; its three tSamFreq bytes read back as 48000; the
      bit resolution fits the subframe. */
  lemma AsBlockLayout()
    ensures Walk(AudioAsAlt1Cs).Some?
    ensures var ds := Walk(AudioAsAlt1Cs).value;
      && |ds| == 2 && |ds[0]| == 7 && |ds[1]| == 11
      && ds[0][2] == USB_AUDIO_SUBTYPE_AS_GENERAL
      && ds[1][2] == USB_AUDIO_SUBTYPE_AS_FORMAT_TYPE
      && ds[1][0] as int == 8 + 3 * ds[1][7] as int
      && Le24(ds[1][8], ds[1][9], ds[1][10]) == AUDIO_SAMPLE_RATE_HZ
      && ds[1][6] as int <= 8 * ds[1][5] as int
  {
    AsPiecesTile();
    WalkTiling(AsPieces);
  }

  /** The class-specific endpoint block is one 7-byte descriptor. */
  lemma EpBlockLayout()
    ensures Walk(AudioCsEp) == Some([AudioCsEp])
    ensures AudioCsEp[0] == |AudioCsEp| == 7
  {
    assert Framed(AudioCsEp);
    assert Concat([AudioCsEp]) == AudioCsEp;
    WalkTiling([AudioCsEp]);
  }

  // ===========================================================================
  // The entity graph
  // ===========================================================================

  /** bTerminalID or bUnitID of an addressable entity. */
  function EntityId(e: ClassDescriptor): Option<Byte>
  {
    match e
    case InputTerminal(id, _, _, _, _, _, _) => Some(id)
    case FeatureUnit(id, _, _, _, _) => Some(id)
    case OutputTerminal(id, _, _, _, _) => Some(id)
    case _ => None
  }

  /** bSourceID of an entity that has one. */
  function SourceOf(e: ClassDescriptor): Option<Byte>
  {
    match e
    case FeatureUnit(_, src, _, _, _) => Some(src)
    case OutputTerminal(_, _, _, src, _) => Some(src)
    case _ => None
  }

  /** Index of the first entity with the given ID. */
  function Find(es: seq<ClassDescriptor>, id: Byte): (r: Option<nat>)
    ensures r.Some? ==> r.value < |es| && EntityId(es[r.value]) == Some(id)
    ensures r.Some? ==> forall k | 0 <= k < r.value :: EntityId(es[k]) != Some(id)
    ensures r.None? ==> forall k | 0 <= k < |es| :: EntityId(es[k]) != Some(id)
  {
    if es == [] then None
    else if EntityId(es[0]) == Some(id) then Some(0)
    else
      match Find(es[1..], id)
      case None => None
      case Some(k) => Some(k + 1)
  }

  /** No two entities share an ID, and ID 0 (undefined) is not used. */
  predicate IdsUnique(es: seq<ClassDescriptor>)
  {
    && (forall i | 0 <= i < |es| :: EntityId(es[i]) != Some(0))
    && (forall i, j | 0 <= i < j < |es| :: EntityId(es[i]).Some? ==> EntityId(es[i]) != EntityId(es[j]))
  }

  /** Every source ID names an entity declared earlier in the block. */
  predicate SourcesPrecede(es: seq<ClassDescriptor>)
  {
    forall i | 0 <= i < |es| && SourceOf(es[i]).Some? ::
      Find(es, SourceOf(es[i]).value).Some? && Find(es, SourceOf(es[i]).value).value < i
  }

  /** The entities met by following source links from entity `i`, `i`
      first. */
  function Upstream(es: seq<ClassDescriptor>, i: nat): (p: seq<nat>)
    requires SourcesPrecede(es) && i < |es|
    ensures |p| >= 1 && p[0] == i
    ensures forall k | 0 <= k < |p| :: p[k] <= i
    decreases i
  {
    match SourceOf(es[i])
    case None => [i]
    case Some(src) => [i] + Upstream(es, Find(es, src).value)
  }

  /** Following source links never comes back to an entity: the path is
      strictly decreasing, so the graph has no cycle. */
  lemma {:induction false} UpstreamAcyclic(es: seq<ClassDescriptor>, i: nat)
    requires SourcesPrecede(es) && i < |es|
    ensures forall a, b | 0 <= a < b < |Upstream(es, i)| :: Upstream(es, i)[a] > Upstream(es, i)[b]
  {
    match SourceOf(es[i])
    case None =>
    case Some(src) =>
      var j := Find(es, src).value;
      UpstreamAcyclic(es, j);
      var p := Upstream(es, i);
      assert p == [i] + Upstream(es, j);
      forall a, b | 0 <= a < b < |p| ensures p[a] > p[b] {
        if a == 0 {
          assert p[b] == Upstream(es, j)[b - 1] <= j < i;
        } else {
          assert p[a] == Upstream(es, j)[a - 1] && p[b] == Upstream(es, j)[b - 1];
        }
      }
  }

  /** Channels in the cluster an entity outputs: an input terminal's
      bNrChannels, passed unchanged through units and output terminals. */
  function Channels(es: seq<ClassDescriptor>, i: nat): nat
    requires SourcesPrecede(es) && i < |es|
    decreases i
  {
    match es[i]
    case InputTerminal(_, _, _, nch, _, _, _) => nch
    case FeatureUnit(_, src, _, _, _) => Channels(es, Find(es, src).value)
    case OutputTerminal(_, _, _, src, _) => Channels(es, Find(es, src).value)
    case _ => 0
  }

  /** Each feature unit carries (ch + 1) control bitmaps of bControlSize
      bytes, ch being the channels of its source (UAC 1.0 section
      4.3.2.5). */
  predicate FeatureUnitsSized(es: seq<ClassDescriptor>)
    requires SourcesPrecede(es)
  {
    forall i | 0 <= i < |es| && es[i].FeatureUnit? ::
      |es[i].controls| == (Channels(es, Find(es, es[i].sourceId).value) + 1) * es[i].controlSize
  }

  /** In the AudioControl block, IDs 1, 2 and 3 name entities 1, 2 and 3,
      no two entities share an ID, and every bSourceID resolves to an entity
      declared before the one that names it. */
  lemma AcLinksResolve()
    ensures IdsUnique(AcEntities) && SourcesPrecede(AcEntities)
    ensures Find(AcEntities, 1) == Some(1) && Find(AcEntities, 2) == Some(2) && Find(AcEntities, 3) == Some(3)
  {
    assert EntityId(AcEntities[0]) == None;
    assert EntityId(AcEntities[1]) == Some(1);
    assert EntityId(AcEntities[2]) == Some(2);
    assert EntityId(AcEntities[3]) == Some(3);
    assert Find(AcEntities, 1) == Some(1);
    assert Find(AcEntities, 2) == Some(2);
    assert Find(AcEntities, 3) == Some(3);
  }

  /** The Audio Control topology: IDs are unique and non-zero, every source
      is declared before its user, the path from the output terminal runs
      output terminal (3) -> feature unit (2) -> microphone input terminal
      (1) and ends there, the feature unit's controls are sized for the
      mono cluster (so its bLength is 7 + (1 + 1) * 1), the header lists
      only the streaming interface, and the AS general descriptor's
      bTerminalLink names the USB streaming output terminal. */
  lemma AcTopology()
    ensures IdsUnique(AcEntities) && SourcesPrecede(AcEntities)
    ensures Upstream(AcEntities, 3) == [3, 2, 1]
    ensures EntityId(AcEntities[3]) == Some(AUDIO_OUTPUT_TERM_ID)
    ensures EntityId(AcEntities[2]) == Some(AUDIO_FEATURE_UNIT_ID)
    ensures EntityId(AcEntities[1]) == Some(AUDIO_INPUT_TERM_ID)
    ensures AcEntities[1].InputTerminal? && AcEntities[1].terminalType == USB_AUDIO_TERMINAL_MICROPHONE
    ensures SourceOf(AcEntities[1]).None?
    ensures FeatureUnitsSized(AcEntities)
    ensures AcEntities[0].interfaceNrs == [IFACE_AUDIO_STREAM]
    ensures Find(AcEntities, AsEntities[0].terminalLink) == Some(3)
    ensures AcEntities[3].OutputTerminal? && AcEntities[3].terminalType == USB_AUDIO_TERMINAL_STREAMING
  {
    AcLinksResolve();
    assert Upstream(AcEntities, 1) == [1];
    assert Upstream(AcEntities, 2) == [2, 1];
  }

  // ===========================================================================
  // Endpoint attributes (USB 2.0 section 9.6.6)
  // ===========================================================================

  /** bmAttributes bits 1..0 give the transfer type and bits 3..2 the
      synchronization type. */
  const USB_ENDPOINT_ATTR_ISOCHRONOUS: Byte := 0x01
  const USB_ENDPOINT_ATTR_ASYNC: Byte := 0x04
  const USB_ENDPOINT_ATTR_ADAPTIVE: Byte := 0x08

  datatype TransferType = Control | Isochronous | Bulk | Interrupt
  datatype SyncType = NoSync | Asynchronous | Adaptive | Synchronous

  /** C's `|` on two byte constants. */
  function BitOr(a: Byte, b: Byte): Byte
  {
    ((a as bv8) | (b as bv8)) as int
  }

  function TransferTypeOf(attributes: Byte): TransferType
  {
    var t := attributes % 4;
    if t == 0 then Control else if t == 1 then Isochronous else if t == 2 then Bulk else Interrupt
  }

  function SyncTypeOf(attributes: Byte): SyncType
  {
    var s := (attributes / 4) % 4;
    if s == 0 then NoSync else if s == 1 then Asynchronous else if s == 2 then Adaptive else Synchronous
  }

  /** The attributes `usb_set_config` passes to the endpoint setup call. */
  const EpSetupAttributes: Byte := BitOr(USB_ENDPOINT_ATTR_ISOCHRONOUS, USB_ENDPOINT_ATTR_ASYNC)

  // ===========================================================================
  // Device, interface and configuration records
  // ===========================================================================

  datatype DeviceDescriptor = DeviceDescriptor(
    bcdUsb: nat, deviceClass: Byte, deviceSubClass: Byte, deviceProtocol: Byte,
    maxPacketSize0: Byte, idVendor: nat, idProduct: nat, bcdDevice: nat,
    iManufacturer: Byte, iProduct: Byte, iSerialNumber: Byte, numConfigurations: Byte)

  /** A standard endpoint with the class-specific bytes that follow it. */
  datatype EndpointDescriptor = EndpointDescriptor(
    address: Byte, attributes: Byte, maxPacketSize: nat, interval: Byte, extra: seq<Byte>)

  /** One alternate setting of an interface; `endpoints` is the endpoint
      array (empty for NULL). */
  datatype InterfaceDescriptor = InterfaceDescriptor(
    number: Byte, alternateSetting: Byte, numEndpoints: Byte,
    interfaceClass: Byte, interfaceSubClass: Byte, interfaceProtocol: Byte, iInterface: Byte,
    endpoints: seq<EndpointDescriptor>, extra: seq<Byte>)

  /** An interface as the device stack sees it: the declared number of
      alternate settings, the array of them, and whether the stack keeps
      the current alternate setting for it. */
  datatype Interface = Interface(
    numAltsetting: nat, altsettings: seq<InterfaceDescriptor>, tracksCurAltsetting: bool)

  /** The configuration; its wTotalLength is computed by the stack. */
  datatype ConfigDescriptor = ConfigDescriptor(
    numInterfaces: Byte, configurationValue: Byte, iConfiguration: Byte,
    attributes: Byte, maxPower: Byte, interfaces: seq<Interface>)

  const DevDescriptor := DeviceDescriptor(
    0x0200, 0, 0, 0, 64, 0x1209, 0x0002, 0x0100, 1, 2, 3, 1)

  /** `audio_iso_ep` as written: isochronous with the ADAPTIVE sync bits. */
  const AudioIsoEpAsWritten := EndpointDescriptor(
    EP_AUDIO_IN, BitOr(USB_ENDPOINT_ATTR_ISOCHRONOUS, USB_ENDPOINT_ATTR_ADAPTIVE),
    AUDIO_PACKET_SIZE, 1, AudioCsEp)

  /** `audio_iso_ep` with the asynchronous sync type its comment and the
      endpoint setup call use: the corrected descriptor. The configuration
      below keeps the descriptor as written. */
  const AudioIsoEp := AudioIsoEpAsWritten.(
    attributes := BitOr(USB_ENDPOINT_ATTR_ISOCHRONOUS, USB_ENDPOINT_ATTR_ASYNC))

  const AudioAcIface: seq<InterfaceDescriptor> := [
    InterfaceDescriptor(IFACE_AUDIO_CONTROL, 0, 0, USB_CLASS_AUDIO, USB_AUDIO_SUBCLASS_AUDIOCONTROL,
                        0, 0, [], AudioAcCs)
  ]

  const AudioAsIface: seq<InterfaceDescriptor> := [
    InterfaceDescriptor(IFACE_AUDIO_STREAM, 0, 0, USB_CLASS_AUDIO, USB_AUDIO_SUBCLASS_AUDIOSTREAMING,
                        0, 0, [], []),
    InterfaceDescriptor(IFACE_AUDIO_STREAM, 1, 1, USB_CLASS_AUDIO, USB_AUDIO_SUBCLASS_AUDIOSTREAMING,
                        0, 0, [AudioIsoEpAsWritten], AudioAsAlt1Cs)
  ]

  const Interfaces: seq<Interface> := [
    Interface(1, AudioAcIface, false),
    Interface(2, AudioAsIface, true)
  ]

  const Config := ConfigDescriptor(2, 1, 0, 0x80, 50, Interfaces)

  /** Declared counts match the arrays, interface `n` sits at index `n`,
      alternate setting `a` at index `a`, and every class-specific block
      walks. */
  predicate ConfigConsistent(c: ConfigDescriptor)
  {
    && c.numInterfaces == |c.interfaces|
    && forall n | 0 <= n < |c.interfaces| :: InterfaceConsistent(n, c.interfaces[n])
  }

  predicate InterfaceConsistent(n: nat, itf: Interface)
  {
    && itf.numAltsetting == |itf.altsettings| >= 1
    && forall a | 0 <= a < |itf.altsettings| ::
         && itf.altsettings[a].number == n
         && itf.altsettings[a].alternateSetting == a
         && itf.altsettings[a].numEndpoints == |itf.altsettings[a].endpoints|
         && Walk(itf.altsettings[a].extra).Some?
         && forall k | 0 <= k < |itf.altsettings[a].endpoints| :: Walk(itf.altsettings[a].endpoints[k].extra).Some?
  }

  /** The configuration is consistent; the control interface has one
      setting; the streaming interface has exactly two, alternate setting 0
      with no endpoint (zero bandwidth) and alternate setting 1 with one
      isochronous IN endpoint whose wMaxPacketSize is AUDIO_PACKET_SIZE,
      polled every frame; the stack tracks the streaming interface's
      current setting. */
  lemma ConfigShape()
    ensures ConfigConsistent(Config)
    ensures |Config.interfaces| == 2
    ensures |Config.interfaces[IFACE_AUDIO_CONTROL].altsettings| == 1
    ensures Config.interfaces[IFACE_AUDIO_STREAM].numAltsetting == 2
    ensures Config.interfaces[IFACE_AUDIO_STREAM].tracksCurAltsetting
    ensures Config.interfaces[IFACE_AUDIO_STREAM].altsettings[0].endpoints == []
    ensures var alt1 := Config.interfaces[IFACE_AUDIO_STREAM].altsettings[1];
      && |alt1.endpoints| == 1
      && alt1.endpoints[0].maxPacketSize == AUDIO_PACKET_SIZE
      && alt1.endpoints[0].address / 0x80 == 1
      && TransferTypeOf(alt1.endpoints[0].attributes) == Isochronous
      && alt1.endpoints[0].interval == 1
  {
    ControlIfaceConsistent();
    StreamIfaceConsistent();
    assert Config.interfaces == Interfaces;
  }

  /** Interface 0 has its one alternate setting at index 0, no endpoint,
      and an AudioControl block that walks. */
  lemma ControlIfaceConsistent()
    ensures InterfaceConsistent(IFACE_AUDIO_CONTROL as nat, Interfaces[0])
  {
    AcBlockLayout();
  }

  /** Interface 1 has alternate settings 0 and 1 at their indices, the
      isochronous endpoint only in setting 1, and blocks that walk. */
  lemma StreamIfaceConsistent()
    ensures InterfaceConsistent(IFACE_AUDIO_STREAM as nat, Interfaces[1])
  {
    AsBlockLayout();
    EpBlockLayout();
    assert Walk([]) == Some([]);
  }

  /** The Type I format agrees with the endpoint: channels * subframe bytes
      * sample rate / 1000 is the endpoint's wMaxPacketSize, with no
      remainder, and the resolution fits the subframe. */
  lemma FormatMatchesEndpoint()
    ensures var f := AsEntities[1];
      && f.FormatTypeI?
      && f.samFreqs == [AUDIO_SAMPLE_RATE_HZ]
      && (f.nrChannels * f.subframeSize * f.samFreqs[0]) % 1000 == 0
      && f.nrChannels * f.subframeSize * f.samFreqs[0] / 1000 == AudioIsoEpAsWritten.maxPacketSize
      && f.bitResolution <= 8 * f.subframeSize
  {
  }

  /** The device declares its class per interface (class, subclass and
      protocol 0), USB 2.0, one configuration, and string indices 1..3. */
  lemma DeviceClassPerInterface()
    ensures DevDescriptor.deviceClass == 0 && DevDescriptor.deviceSubClass == 0
    ensures DevDescriptor.deviceProtocol == 0
    ensures DevDescriptor.bcdUsb == 0x0200 && DevDescriptor.numConfigurations == 1
    ensures DevDescriptor.iManufacturer == 1 && DevDescriptor.iProduct == 2 && DevDescriptor.iSerialNumber == 3
  {
  }

  /** As written, the isochronous endpoint declares ADAPTIVE synchronization
      (bits 3..2 = 0b10) while the endpoint setup call asks for ASYNC
      (0b01); both agree only on the isochronous transfer type. The
      configuration a host reads carries this descriptor. */
  lemma IsoEpSyncMismatch()
    ensures AudioIsoEpAsWritten.attributes == 0x09
    ensures TransferTypeOf(AudioIsoEpAsWritten.attributes) == Isochronous
    ensures SyncTypeOf(AudioIsoEpAsWritten.attributes) == Adaptive
    ensures SyncTypeOf(EpSetupAttributes) == Asynchronous
    ensures SyncTypeOf(AudioIsoEpAsWritten.attributes) != SyncTypeOf(EpSetupAttributes)
    ensures Config.interfaces[IFACE_AUDIO_STREAM].altsettings[1].endpoints == [AudioIsoEpAsWritten]
    ensures SyncTypeOf(Config.interfaces[IFACE_AUDIO_STREAM].altsettings[1].endpoints[0].attributes) == Adaptive
  {
  }

  /** With ASYNC in the descriptor, the declared endpoint and the endpoint
      actually set up agree, and the descriptor differs from the one as
      written in the attribute byte only. */
  lemma IsoEpSyncAgrees()
    ensures AudioIsoEp.attributes == EpSetupAttributes == 0x05
    ensures TransferTypeOf(AudioIsoEp.attributes) == Isochronous
    ensures SyncTypeOf(AudioIsoEp.attributes) == Asynchronous
    ensures AudioIsoEp.(attributes := AudioIsoEpAsWritten.attributes) == AudioIsoEpAsWritten
  {
  }
}
