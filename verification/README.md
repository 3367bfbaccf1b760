# stm32-microphone: a Dafny model of the USB Audio Class 1.0 descriptors and streaming callbacks

The firmware turns an STM32F411 into a USB Audio Class 1.0 (UAC1) microphone.
It exposes one mono 16-bit 48 kHz capture stream. Its core, `usb_descriptors.c`,
is modelled here. It holds:

- the descriptor tables a host reads at enumeration;
- the callbacks the USB device stack runs: SET_CONFIGURATION, SET_INTERFACE
  and start of frame (SOF);
- the code that writes the chip's 96-bit unique ID into the serial-number
  string as 24 hex digits.

The constants come from `usb_audio_uac1.h` and `usb_descriptors.h`.

The project has four modules:

- `uac1.dfy` (`Uac1`) holds the UAC1 codes, the format parameters, the
  interface numbers and the endpoint address. It also holds the byte
  arithmetic the tables use to split multi-byte codes (`v & 0xFF`, `v >> 8`),
  with the lemmas that the split is exact.
- `descriptors.dfy` (`Descriptors`) holds the three class-specific byte
  blocks `audio_ac_cs`, `audio_as_alt1_cs` and `audio_cs_ep`. Each is written
  as the concatenation of its commented sections (header, input terminal,
  feature unit, output terminal; AS general, Type I format).
  - `Walk` is a host-side walker that splits a block by its bLength bytes.
  - Per-entity decoders are paired with an encoder they invert.
  - The entity graph of the Audio Control block is modelled, with its links.
  - The device, interface and configuration records are modelled, with
    their structural consistency.
- `streaming.dfy` (`Streaming`) models the streaming state.
  - As pure functions: the state machine of the three module-level flags
    (`usb_configured`, `audio_streaming_enabled`, `audio_dev`) and of
    callback registration. `Step` takes one event and `Run` takes a history.
  - As the class `AudioFunction`: the same state as fields updated in place,
    and the static `pcm` buffer as an array that the SOF callback's loop
    fills.
  - The class is tied to the pure model by `Tracked()`. Every handler keeps
    it.
- `serial.dfy` (`Serial`) models `word_to_hex` as a loop over an array
  slice. It is proved against `HexWord`, a function that renders a word as
  eight digits. `ParseHex`, the number a host reads back from hex digits, is
  the inverse of `HexWord`. `usb_set_unique_serial` is modelled on the
  25-character `usb_serial` buffer.

## Model

| member | source | states |
|---|---|---|
| Uac1.Le16Split | usb_descriptors.c:49-50 | a 16-bit code split as `v & 0xFF`, `v >> 8` reads back little-endian as the same code |
| Uac1.Le16Bytes | usb_descriptors.c:49-50 | two bytes read as a little-endian 16-bit field and split again are the same two bytes (the inverse direction) |
| Uac1.Le24Split | usb_descriptors.c:104-106 | a 24-bit value split as `v & 0xFF`, `(v >> 8) & 0xFF`, `(v >> 16) & 0xFF` reads back as the same value |
| Uac1.Le24Bytes | usb_descriptors.c:104-106 | three bytes read as a 24-bit field and split again are the same three bytes |
| Uac1.CodesSplitExactly | usb_descriptors.c:46-107 | bcdADC 0x0100, PCM 0x0001, microphone 0x0201 and USB streaming 0x0101 survive the byte split in the tables |
| Uac1.TerminalTypesInTheirBlocks | usb_audio_uac1.h:65-74 | the microphone lies in the input-terminal block 0x02xx and the streaming terminal in the USB block 0x01xx |
| Uac1.TopologyIdsDistinct | usb_audio_uac1.h:99-101 | the three entity IDs are non-zero and pairwise distinct |
| Uac1.BytesPerSampleExact | usb_audio_uac1.h:108-111 | 16 bits per sample is exactly 2 bytes; the division by 8 truncates nothing |
| Uac1.PacketSizeExact | usb_audio_uac1.h:113-114 | AUDIO_PACKET_SIZE is 96 and its division by 1000 truncates nothing |
| Uac1.PacketIsOneMillisecond | usb_audio_uac1.h:108-114 | a packet holds 48 whole samples, one millisecond of 48 kHz mono audio |
| Uac1.SampleRateFits24Bits | usb_descriptors.c:104-106 | 48000 fits in tSamFreq's three bytes and reads back unchanged |
| Descriptors.Walk | usb_descriptors.c:46-118 | splitting a block by bLength yields framed descriptors whose concatenation is the block |
| Descriptors.WalkTiling | usb_descriptors.c:46-118 | any tiling of a block by framed descriptors is what the walker returns, so the split is unique |
| Descriptors.WalkFailsOnlyUntiled | usb_descriptors.c:46-118 | the walker fails only on blocks no sequence of framed descriptors tiles |
| Descriptors.Split24s | usb_descriptors.c:104-106 | a list of frequencies that fit 24 bits encodes to three bytes per frequency (its inverse is Join24s, proved by Join24sSplit24s) |
| Descriptors.Join24s | usb_descriptors.c:104-106 | bytes in groups of three read as one 24-bit frequency per group, each fitting 24 bits (its inverse is Split24s, proved by Split24sJoin24s) |
| Descriptors.Join24sSplit24s | usb_descriptors.c:103-106 | encoding a list of 24-bit frequencies and reading it back gives the list |
| Descriptors.Split24sJoin24s | usb_descriptors.c:103-106 | reading 3-byte frequencies and encoding them again gives the bytes |
| Descriptors.Encode | usb_descriptors.c:46-118 | every well-formed entity encodes to a framed descriptor of its class-defined bLength |
| Descriptors.DecodeHeader | usb_descriptors.c:47-54 | an accepted AC header is well-formed and re-encodes to exactly the bytes read |
| Descriptors.DecodeInputTerminal | usb_descriptors.c:56-65 | an accepted input terminal is well-formed and re-encodes to exactly the bytes read |
| Descriptors.DecodeFeatureUnit | usb_descriptors.c:67-74 | an accepted feature unit is well-formed and re-encodes to exactly the bytes read |
| Descriptors.DecodeOutputTerminal | usb_descriptors.c:76-82 | an accepted output terminal is well-formed and re-encodes to exactly the bytes read |
| Descriptors.DecodeAsGeneral | usb_descriptors.c:90-95 | an accepted AS general descriptor is well-formed and re-encodes to exactly the bytes read |
| Descriptors.DecodeFormatType | usb_descriptors.c:97-106 | an accepted Type I format descriptor is well-formed and re-encodes to exactly the bytes read |
| Descriptors.DecodeEpGeneral | usb_descriptors.c:113-118 | an accepted class-specific endpoint descriptor is well-formed and re-encodes to exactly the bytes read |
| Descriptors.Decode | usb_descriptors.c:46-118 | a decoded entity belongs to the context it was read in and re-encodes to the bytes read |
| Descriptors.DecodeEncode | usb_descriptors.c:46-118 | decoding the encoding of any well-formed entity gives the entity back |
| Descriptors.SerializeIsConcat | usb_descriptors.c:46-118 | a serialized block is the concatenation of its entities' encodings |
| Descriptors.DecodeAll | usb_descriptors.c:46-118 | decoded pieces are well-formed, one per piece, each re-encoding to its piece |
| Descriptors.DecodeBlock | usb_descriptors.c:46-118 | a decoded block serializes back to itself, byte for byte |
| Descriptors.DecodeBlockSerialize | usb_descriptors.c:46-118 | decoding a serialized list of same-context entities gives the list back |
| Descriptors.DecodeAllEncodings | usb_descriptors.c:46-118 | decoding the encodings of same-context entities gives them back |
| Descriptors.AcPiecesTile | usb_descriptors.c:46-83 | the four sections of `audio_ac_cs` are framed, make up the block, and are the encodings of the four AC entities |
| Descriptors.AsPiecesTile | usb_descriptors.c:89-107 | the two sections of `audio_as_alt1_cs` are framed, make up the block, and are the encodings of the two AS entities |
| Descriptors.AcBlockDecodes | usb_descriptors.c:46-83 | `audio_ac_cs` decodes to exactly the header, the mono microphone terminal, the control-less feature unit and the streaming output terminal |
| Descriptors.AsBlockDecodes | usb_descriptors.c:89-107 | `audio_as_alt1_cs` decodes to exactly an AS general descriptor linked to terminal 3 with PCM, and a Type I 1-channel 2-byte 16-bit 48 kHz format |
| Descriptors.EpBlockDecodes | usb_descriptors.c:113-118 | `audio_cs_ep` decodes to exactly one general endpoint descriptor with no controls and no lock delay |
| Descriptors.AcBlockLayout | usb_descriptors.c:46-83 | the AC block walks as 9 + 12 + 9 + 9 bytes; the subtypes come in order; header and feature-unit bLengths follow their formulas |
| Descriptors.AcTotalLengthExact | usb_descriptors.c:51 | the hand-written wTotalLength 0x0027 equals the block size 39, the sum of the four bLengths |
| Descriptors.AsBlockLayout | usb_descriptors.c:89-107 | the AS block walks as 7 + 11 bytes; Type I bLength is 8 + 3 * bSamFreqType; tSamFreq reads 48000; resolution fits the subframe |
| Descriptors.EpBlockLayout | usb_descriptors.c:113-118 | the endpoint block is a single 7-byte descriptor |
| Descriptors.UpstreamAcyclic | usb_descriptors.c:67-81 | when every bSourceID names an earlier entity, following source links strictly decreases, so the graph has no cycle |
| Descriptors.AcLinksResolve | usb_descriptors.c:52-81 | AC entity IDs are unique and non-zero, IDs 1, 2, 3 name entities 1, 2, 3, and every bSourceID names an earlier entity |
| Descriptors.AcTopology | usb_descriptors.c:46-92 | the path from the output terminal is 3 -> 2 -> 1 and ends at the microphone; the feature unit's controls fit the mono cluster; the header names interface 1; bTerminalLink names the streaming terminal |
| Descriptors.ConfigShape | usb_descriptors.c:136-208 | counts match arrays; interfaces and alternate settings sit at their own numbers; alt 0 has no endpoint; alt 1 has one iso IN endpoint of 96 bytes, interval 1; the stack tracks the current setting |
| Descriptors.ControlIfaceConsistent | usb_descriptors.c:136-149 | interface 0 has one alternate setting numbered 0, no endpoint and a walkable AC block |
| Descriptors.StreamIfaceConsistent | usb_descriptors.c:151-180 | interface 1 has settings 0 and 1 at their indices, the endpoint only in setting 1, and walkable blocks |
| Descriptors.FormatMatchesEndpoint | usb_descriptors.c:97-127 | channels * subframe size * 48000 / 1000 is exactly the endpoint's wMaxPacketSize, and the resolution fits the subframe |
| Descriptors.DeviceClassPerInterface | usb_descriptors.c:25-40 | the device declares class 0 (per interface), USB 2.0, one configuration and string indices 1..3 |
| Descriptors.IsoEpSyncMismatch | usb_descriptors.c:120-130 | as written the endpoint declares ADAPTIVE sync (0x09) while the endpoint setup asks for ASYNC; the configuration a host reads carries that descriptor in alternate setting 1, so it advertises ADAPTIVE |
| Descriptors.IsoEpSyncAgrees | usb_descriptors.c:310-314 | the corrected descriptor's attributes are the setup's ISOCHRONOUS \| ASYNC (0x05) and differ from the written one in that byte only |
| Streaming.SampleBytes | usb_descriptors.c:252-253 | an int16 sample is written as two bytes, low byte first; DecodeSampleBytes and SampleBytesDecode prove it is the inverse of the host's signed little-endian read |
| Streaming.DecodeSampleBytes | usb_descriptors.c:251-253 | the low and high bytes written for any int16 sample decode back to the sample |
| Streaming.SampleBytesDecode | usb_descriptors.c:251-253 | every byte pair is the encoding of the sample it decodes to |
| Streaming.SampleIsLittleEndian4096 | usb_descriptors.c:251-253 | the sample 4096 is written as 0x00, 0x10 |
| Streaming.Packet | usb_descriptors.c:244-258 | the packet is AUDIO_PACKET_SIZE bytes and each of its 48 byte pairs decodes to the sample |
| Streaming.PacketFitsEndpoint | usb_descriptors.c:244-260 | the submitted length equals the endpoint's wMaxPacketSize 96, is even, and every pair is 0x00, 0x10 |
| Streaming.Step | usb_descriptors.c:234-319 | callbacks are registered exactly from the first SET_CONFIGURATION on, and until then SET_INTERFACE and SOF change nothing; only SET_CONFIGURATION sets configured; the streaming flag changes only on a registered SET_INTERFACE to interface 1; submissions only grow, by at most one packet, and only on an SOF from a ready state, appending the constant packet |
| Streaming.StepPreservesInv | usb_descriptors.c:234-319 | each event keeps: streaming or registration implies configured with a handle, and every submitted packet is the constant packet |
| Streaming.RunInv | usb_descriptors.c:234-319 | every state reachable from reset satisfies that invariant |
| Streaming.StreamingImpliesConfigured | usb_descriptors.c:264-271 | streaming is only ever enabled on a configured device with a handle |
| Streaming.SubmittedArePackets | usb_descriptors.c:260 | every packet handed to the endpoint is the constant packet of 96 bytes |
| Streaming.HistoryExplainsState | usb_descriptors.c:236-238 | registration implies an earlier SET_CONFIGURATION; streaming or any submission implies SET_CONFIGURATION then SET_INTERFACE(1, 1) |
| Streaming.NoPacketBeforeConfigAndAlt1 | usb_descriptors.c:236-238 | nothing is submitted until SET_CONFIGURATION and then SET_INTERFACE(1, 1) |
| Streaming.UnconfiguredIsSilent | usb_descriptors.c:317-318 | without SET_CONFIGURATION the callbacks are not registered and the state stays at reset |
| Streaming.SetAltsettingEffect | usb_descriptors.c:264-271 | on interface 1 streaming becomes `alt == 1`; any other interface changes nothing; nothing but the flag ever changes |
| Streaming.SetConfigurationEffect | usb_descriptors.c:302-319 | afterwards the device is configured with callbacks registered; the streaming flag and the packets are kept; it is ready iff streaming was already on |
| Streaming.StartOfFrameEffect | usb_descriptors.c:234-261 | an SOF appends exactly one packet when the guard holds and changes nothing otherwise |
| Streaming.FramesWhileStreaming | usb_descriptors.c:234-261 | while ready, n frames append exactly n packets and stay ready |
| Streaming.FramesWhileIdle | usb_descriptors.c:234-261 | while not ready, frames change nothing |
| Streaming.StreamScenario | usb_descriptors.c:234-319 | configure, select alt 1 and ten frames give ten packets; selecting alt 0 then stops streaming and submission |
| Streaming.AudioFunction.constructor | usb_descriptors.c:229-231 | reset state: all flags false, no handle, `pcm` zeroed, matching `Initial` |
| Streaming.AudioFunction.SetConfig | usb_descriptors.c:302-319 | keeps the handle, sets configured, registers the callbacks, and leaves the streaming flag |
| Streaming.AudioFunction.SetInterface | usb_descriptors.c:264-271 | sets the streaming flag to `alt == 1` on interface 1 only; every other field is unchanged |
| Streaming.AudioFunction.Sof | usb_descriptors.c:234-261 | when the guard holds, fills `pcm` with the packet and submits it; otherwise `pcm` and the submissions are unchanged; flags unchanged |
| Streaming.AudioFunction.FillPcm | usb_descriptors.c:244-258 | after the loop, `pcm` holds exactly the packet |
| Streaming.AudioFunction.OnSetConfiguration | usb_descriptors.c:302-319 | delivering SET_CONFIGURATION keeps the fields equal to the pure model's state after the history |
| Streaming.AudioFunction.OnSetInterface | usb_descriptors.c:264-271 | delivering SET_INTERFACE (to the callback only if registered) keeps the fields equal to the pure model's state |
| Streaming.AudioFunction.OnStartOfFrame | usb_descriptors.c:234-261 | delivering an SOF (only if registered) keeps the fields equal to the pure model's state, adding at most one packet |
| Serial.HexChar | usb_descriptors.c:279 | every nibble is written as an upper-case hex digit, a decimal digit exactly for values below 10; DigitValueHexChar proves the value reads back |
| Serial.DigitValueHexChar | usb_descriptors.c:279 | the digit written for a nibble reads back as that nibble |
| Serial.HexCharDigitValue | usb_descriptors.c:279 | every upper-case hex digit is the digit written for its value |
| Serial.Shl4Nibble | usb_descriptors.c:277-278 | after `w <<= 4` on a uint32, nibble k is the former nibble k + 1 |
| Serial.HexDigits | usb_descriptors.c:276-280 | n iterations of the loop write n hex digits; HexDigitsNibbles says which |
| Serial.HexWord | usb_descriptors.c:274-281 | `word_to_hex` writes exactly eight characters; HexWordNibbles gives each as the hex digit of its nibble and ParseHexWord reads the word back |
| Serial.HexDigitsNibbles | usb_descriptors.c:274-281 | after n steps of take-top-nibble-then-shift, character k is nibble k of the original word |
| Serial.HexWordNibbles | usb_descriptors.c:274-281 | character k of the rendering is `(w >> (28 - 4k)) & 0xF` as a hex digit |
| Serial.ParseHexWord | usb_descriptors.c:274-281 | reading the eight digits back gives the word |
| Serial.HexWordParseHex | usb_descriptors.c:274-281 | every eight-digit upper-case hex string is the rendering of the uint32 it reads as |
| Serial.WordToHex | usb_descriptors.c:274-281 | writes the eight digits of `w` at `dst[off..off+8]` and leaves the rest of the array unchanged |
| Serial.InitialSerial | usb_descriptors.c:217 | the 25-character initializer holds "STM32 Unique ID" then ten NULs of zero fill |
| Serial.InitialSerialString | usb_descriptors.c:217 | before the unique ID is written, the serial string reads "STM32 Unique ID" |
| Serial.SerialTextParses | usb_descriptors.c:291-293 | the serial text is 24 hex digits whose groups read back as uid[2], uid[1], uid[0] |
| Serial.SerialCString | usb_descriptors.c:295 | a C reader of the finished buffer sees exactly the 24 digits |
| Serial.SerialAssembly | usb_descriptors.c:291-295 | the three writes at offsets 0, 8, 16 and the NUL at 24 leave the serial text then NUL, whatever the buffer held |
| Serial.SerialBuffer.constructor | usb_descriptors.c:217 | the buffer starts as "STM32 Unique ID" followed by NULs, 25 characters |
| Serial.SerialBuffer.SetUniqueSerial | usb_descriptors.c:284-296 | the buffer ends as the three words in hex, uid[2] first, then NUL; its C string is those 24 digits |

## Left out

- `main.c` is not part of this model. That leaves out clock setup,
  `usbd_init`, the call to `usb_set_unique_serial` and the polling loop. The
  model assumes the set-config callback is registered, so SET_CONFIGURATION
  always reaches `usb_set_config`.
- The libopencm3 USB stack is not part of this model. Left out with it:
  - request parsing and control transfers;
  - serialization of the configuration descriptor, and the wTotalLength it
    computes;
  - the stack's own storage of the current alternate setting;
  - its check of SET_INTERFACE arguments before the callback runs. The model
    hands any interface and setting to the callback.
- `usbd_ep_setup` is modelled only by the attribute byte it is given.
- `usbd_ep_write_packet` is modelled as appending the buffer to the ghost
  list `submitted`. Its return value, which the source discards, and whether
  the hardware accepts the packet are left out.
- `desig_get_unique_id` is a hardware read. The three words are a parameter
  of `SetUniqueSerial`.
- `gpio_set` and `gpio_clear` only toggle a debug pin, so they are left out.
- The sine synthesis is left out: it is commented out in the source, and
  `phase` never changes. The model's sample is the constant 4096.
- `volatile` and interrupt concurrency are left out. Each callback runs to
  completion as one step.
- The standard descriptor header fields (`USB_DT_*_SIZE`, `USB_DT_*` types)
  and the `USB_ENDPOINT_ATTR_*` values come from libopencm3 headers. The
  attribute values used are those of section 9.6.6 of the USB 2.0
  specification.
- Decoders for UAC1 entities the firmware does not use are not modelled:
  mixer, selector and processing units, and Type II and III formats.
- The first two entries of `usb_strings`, the manufacturer and product
  names, are fixed text that the stack sends to the host unchanged. Nothing
  in `usb_descriptors.c` computes them, so they are not modelled. The malformed, unused `SERIAL_BUFFER_LEN` macro
  is not modelled either.
- Streaming.SampleBytes: takes `sample >> 8` on an `int16_t` to be an
  arithmetic shift. C leaves that implementation-defined for negative values;
  the firmware's sample 4096 is positive.
- `iface` and `alt` are `uint16_t` in the source and `nat` here. The
  comparisons the callback makes are the same on every 16-bit value.
- Serial.WordToHex: the C pointer `&usb_serial[off]` is modelled as the
  array together with an offset.

## Findings

| source | as written | input that shows it | evidently intended | confidence | as-written member | corrected member |
|---|---|---|---|---|---|---|
| usb_descriptors.c:124-125 | bmAttributes of the iso IN endpoint is `USB_ENDPOINT_ATTR_ISOCHRONOUS \| USB_ENDPOINT_ATTR_ADAPTIVE` (0x09), so the host is told the endpoint is adaptive | the configuration descriptor a host reads for interface 1, alternate setting 1: sync bits 3..2 are 0b10; `usb_set_config` (usb_descriptors.c:310-314) sets the same endpoint up as ISOCHRONOUS \| ASYNC (0x05), and the comment on the field says "isoc async data" | `USB_ENDPOINT_ATTR_ISOCHRONOUS \| USB_ENDPOINT_ATTR_ASYNC` (0x05) in the descriptor | not executed; the comment and the setup call both say async. The model's `Config` keeps the descriptor as written; the corrected `AudioIsoEp` exists only for the corrected half | Descriptors.IsoEpSyncMismatch | Descriptors.IsoEpSyncAgrees |
