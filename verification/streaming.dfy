/** The streaming state of the microphone (usb_descriptors.c): the flags the
    set-configuration and set-interface callbacks update, and the
    start-of-frame callback that fills the static `pcm` buffer with 48
    16-bit samples and hands it to the isochronous IN endpoint.

    The pure part is a step function over events the device stack delivers;
    the class `AudioFunction` holds the same state as fields and its methods
    are the callback bodies, proved against the step function. */
module Streaming {
  import opened Uac1
  import opened Descriptors

  // ===========================================================================
  // Samples
  // ===========================================================================

  /** The sample every slot of a packet carries; the phase counter of the
      sine generator never advances and the synthesis is disabled, so the
      callback emits this constant. */
  const SAMPLE: int := 4096

  predicate IsInt16(s: int)
  {
    -0x8000 <= s < 0x8000
  }

  /** `(uint8_t)(sample & 0xFF)` and `(uint8_t)((sample >> 8) & 0xFF)` for
      an `int16_t` sample: the two bytes of its two's complement form, low
      byte first. */
  function SampleBytes(s: int): (b: seq<Byte>)
    requires IsInt16(s)
    ensures |b| == 2
  {
    var u := s % 0x1_0000;
    [LowByte(u), LowByte(u / 0x100)]
  }

  /** How a host reads a little-endian signed 16-bit sample. */
  function DecodeS16(lo: Byte, hi: Byte): (s: int)
    ensures IsInt16(s)
  {
    var u := Le16(lo, hi);
    if u < 0x8000 then u else u - 0x1_0000
  }

  /** The bytes a sample is written as decode back to the sample. */
  lemma DecodeSampleBytes(s: int)
    requires IsInt16(s)
    ensures DecodeS16(SampleBytes(s)[0], SampleBytes(s)[1]) == s
  {
    Le16Split(s % 0x1_0000);
  }

  /** Every 16-bit pattern is the encoding of exactly the sample it decodes
      to. */
  lemma SampleBytesDecode(lo: Byte, hi: Byte)
    ensures SampleBytes(DecodeS16(lo, hi)) == [lo, hi]
  {
    Le16Bytes(lo, hi);
    assert DecodeS16(lo, hi) % 0x1_0000 == Le16(lo, hi);
  }

  /** The constant sample is written as 0x00, 0x10. */
  lemma SampleIsLittleEndian4096()
    ensures IsInt16(SAMPLE) && SampleBytes(SAMPLE) == [0x00, 0x10]
  {
  }

  /** The packet the start-of-frame callback submits: AUDIO_PACKET_SIZE
      bytes, the constant sample in every one of its 48 slots. */
  function Packet(): (p: seq<Byte>)
    ensures |p| == AUDIO_PACKET_SIZE
    ensures forall k | 0 <= k < AUDIO_PACKET_SIZE / 2 :: DecodeS16(p[2 * k], p[2 * k + 1]) == SAMPLE
  {
    DecodeSampleBytes(SAMPLE);
    var b := SampleBytes(SAMPLE);
    var p := seq(AUDIO_PACKET_SIZE, i requires 0 <= i => b[i % 2]);
    PacketSizeExact();
    forall k | 0 <= k < AUDIO_PACKET_SIZE / 2
      ensures p[2 * k] == b[0] && p[2 * k + 1] == b[1]
    {
      assert (2 * k) % 2 == 0 && (2 * k + 1) % 2 == 1;
    }
    p
  }
  /** Slot `i` of the packet holds the low byte of the sample, then its
      high byte. */
  lemma PacketPair(i: nat)
    requires i < AUDIO_PACKET_SIZE / 2
    ensures Packet()[2 * i] == SampleBytes(SAMPLE)[0]
    ensures Packet()[2 * i + 1] == SampleBytes(SAMPLE)[1]
  {
    assert (2 * i) % 2 == 0 && (2 * i + 1) % 2 == 1;
  }


  /** The packet is as long as the endpoint's declared wMaxPacketSize, holds
      whole samples, and every byte pair is 0x00, 0x10. */
  lemma PacketFitsEndpoint()
    ensures |Packet()| == AudioIsoEpAsWritten.maxPacketSize == 96
    ensures |Packet()| % 2 == 0
    ensures forall k | 0 <= k < |Packet()| / 2 :: Packet()[2 * k] == 0x00 && Packet()[2 * k + 1] == 0x10
  {
    var p := Packet();
    forall k | 0 <= k < |p| / 2
      ensures p[2 * k] == 0x00 && p[2 * k + 1] == 0x10
    {
      SampleBytesDecode(p[2 * k], p[2 * k + 1]);
    }
  }

  // ===========================================================================
  // The state machine
  // ===========================================================================

  /** What the device stack delivers: a SET_CONFIGURATION request (always
      handed to `usb_set_config`, which the firmware registers at start-up),
      a SET_INTERFACE request, and a start of frame. */
  datatype Event =
    | SetConfiguration(wValue: nat)
    | SetAltsetting(iface: nat, alt: nat)
    | StartOfFrame

  /** `usb_configured`, `audio_streaming_enabled`, whether `audio_dev` is
      non-NULL, whether the altsetting and SOF callbacks are registered, and
      the packets handed to the endpoint so far. */
  datatype State = State(
    configured: bool, streaming: bool, devPresent: bool, registered: bool,
    submitted: seq<seq<Byte>>)

  const Initial := State(false, false, false, false, [])

  /** The guard at the top of the start-of-frame callback. */
  predicate Ready(s: State)
  {
    s.configured && s.streaming && s.devPresent
  }

  /** One event. The altsetting and SOF callbacks run only once they are
      registered, which only `usb_set_config` does. */
  function Step(s: State, e: Event): (r: State)
    ensures r.registered == (s.registered || e.SetConfiguration?)
    ensures !s.registered && !e.SetConfiguration? ==> r == s
    ensures r.configured == (s.configured || e.SetConfiguration?)
    ensures r.streaming != s.streaming ==> s.registered && e.SetAltsetting? && e.iface == IFACE_AUDIO_STREAM as nat
    ensures r.submitted == s.submitted || r.submitted == s.submitted + [Packet()]
    ensures r.submitted != s.submitted ==> e.StartOfFrame? && Ready(s)
  {
    match e
    case SetConfiguration(_) =>
      s.(configured := true, devPresent := true, registered := true)
    case SetAltsetting(iface, alt) =>
      if s.registered && iface == IFACE_AUDIO_STREAM as nat then s.(streaming := alt == 1) else s
    case StartOfFrame =>
      if s.registered && Ready(s) then s.(submitted := s.submitted + [Packet()]) else s
  }

  /** The state after a history of events, starting from reset. */
  function Run(h: seq<Event>): State
  {
    if h == [] then Initial else Step(Run(h[..|h| - 1]), h[|h| - 1])
  }
  /** One more event is one more step. */
  lemma RunSnoc(h: seq<Event>, e: Event)
    ensures Run(h + [e]) == Step(Run(h), e)
  {
    assert (h + [e])[..|h|] == h;
  }


  /** What every reachable state satisfies: streaming and registration
      imply configuration with a device handle, and everything submitted is
      the constant packet. */
  predicate Inv(s: State)
  {
    && (s.streaming ==> s.registered)
    && (s.registered ==> s.configured && s.devPresent)
    && (|s.submitted| > 0 ==> s.registered)
    && (forall k | 0 <= k < |s.submitted| :: s.submitted[k] == Packet())
  }

  lemma StepPreservesInv(s: State, e: Event)
    requires Inv(s)
    ensures Inv(Step(s, e))
  {
  }

  lemma {:induction false} RunInv(h: seq<Event>)
    ensures Inv(Run(h))
  {
    if h != [] {
      RunInv(h[..|h| - 1]);
      StepPreservesInv(Run(h[..|h| - 1]), h[|h| - 1]);
    }
  }

  /** Streaming is only ever enabled on a configured device. */
  lemma StreamingImpliesConfigured(h: seq<Event>)
    ensures Run(h).streaming ==> Run(h).configured && Run(h).devPresent
  {
    RunInv(h);
  }

  /** Every submitted packet is the constant packet, of the endpoint's
      wMaxPacketSize. */
  lemma SubmittedArePackets(h: seq<Event>)
    ensures forall k | 0 <= k < |Run(h).submitted| ::
      Run(h).submitted[k] == Packet() && |Run(h).submitted[k]| == AudioIsoEpAsWritten.maxPacketSize
  {
    RunInv(h);
    PacketFitsEndpoint();
  }

  /** Some SET_CONFIGURATION precedes some SET_INTERFACE selecting
      alternate setting 1 of the streaming interface. */
  predicate ConfiguredThenSelected(h: seq<Event>)
  {
    exists i, j | 0 <= i < j < |h| :: h[i].SetConfiguration? && h[j] == SetAltsetting(IFACE_AUDIO_STREAM as nat, 1)
  }

  lemma {:induction false} HistoryExplainsState(h: seq<Event>)
    ensures Run(h).registered ==> exists i | 0 <= i < |h| :: h[i].SetConfiguration?
    ensures Run(h).streaming ==> ConfiguredThenSelected(h)
    ensures |Run(h).submitted| > 0 ==> ConfiguredThenSelected(h)
  {
    if h != [] {
      var p := h[..|h| - 1];
      var e := h[|h| - 1];
      HistoryExplainsState(p);
      RunInv(p);
      assert forall k | 0 <= k < |p| :: p[k] == h[k];
      if Run(p).registered {
        var i :| 0 <= i < |p| && p[i].SetConfiguration?;
        assert h[i].SetConfiguration?;
      }
      if Run(p).streaming || |Run(p).submitted| > 0 {
        var i, j :| 0 <= i < j < |p| && p[i].SetConfiguration? && p[j] == SetAltsetting(IFACE_AUDIO_STREAM as nat, 1);
        assert h[i].SetConfiguration? && h[j] == SetAltsetting(IFACE_AUDIO_STREAM as nat, 1);
      }
      if e.SetAltsetting? && Run(h).streaming && !Run(p).streaming {
        var i :| 0 <= i < |p| && p[i].SetConfiguration?;
        assert h[i].SetConfiguration? && h[|h| - 1] == SetAltsetting(IFACE_AUDIO_STREAM as nat, 1);
      }
    }
  }

  /** From reset, nothing is submitted until SET_CONFIGURATION and then
      SET_INTERFACE(streaming interface, alternate setting 1) have been
      delivered. */
  lemma NoPacketBeforeConfigAndAlt1(h: seq<Event>)
    requires |Run(h).submitted| > 0
    ensures ConfiguredThenSelected(h)
  {
    HistoryExplainsState(h);
  }

  /** SET_INTERFACE and start-of-frame events alone never enable streaming
      or submit anything: the callbacks are not registered yet. */
  lemma {:induction false} UnconfiguredIsSilent(h: seq<Event>)
    requires forall k | 0 <= k < |h| :: !h[k].SetConfiguration?
    ensures Run(h) == Initial
  {
    if h != [] {
      UnconfiguredIsSilent(h[..|h| - 1]);
    }
  }

  /** `audio_set_interface`: on the streaming interface the flag becomes
      `alt == 1`; any other interface changes nothing. */
  lemma SetAltsettingEffect(s: State, iface: nat, alt: nat)
    requires s.registered
    ensures iface == IFACE_AUDIO_STREAM as nat ==>
      (Step(s, SetAltsetting(iface, alt)).streaming <==> alt == 1)
    ensures iface != IFACE_AUDIO_STREAM as nat ==> Step(s, SetAltsetting(iface, alt)) == s
    ensures Step(s, SetAltsetting(iface, alt)).(streaming := s.streaming) == s
  {
  }

  /** `usb_set_config`: configured, handle present and callbacks registered
      afterwards; the streaming flag and the packets are left as they were. */
  lemma SetConfigurationEffect(s: State, wValue: nat)
    ensures Ready(Step(s, SetConfiguration(wValue))) <==> s.streaming
    ensures Step(s, SetConfiguration(wValue)).registered
    ensures Step(s, SetConfiguration(wValue)).streaming == s.streaming
    ensures Step(s, SetConfiguration(wValue)).submitted == s.submitted
  {
  }

  /** A start of frame submits exactly one packet when the guard holds and
      nothing otherwise. */
  lemma StartOfFrameEffect(s: State)
    requires Inv(s)
    ensures Ready(s) ==> Step(s, StartOfFrame).submitted == s.submitted + [Packet()]
    ensures !Ready(s) ==> Step(s, StartOfFrame) == s
  {
  }

  /** `n` starts of frame. */
  function Frames(n: nat): (h: seq<Event>)
    ensures |h| == n && forall k | 0 <= k < n :: h[k] == StartOfFrame
  {
    seq(n, _ => StartOfFrame)
  }

  /** While streaming, each frame adds one packet. */
  lemma {:induction false} FramesWhileStreaming(h: seq<Event>, n: nat)
    requires Ready(Run(h))
    ensures Ready(Run(h + Frames(n)))
    ensures Run(h + Frames(n)).submitted == Run(h).submitted + seq(n, _ => Packet())
  {
    if n > 0 {
      FramesWhileStreaming(h, n - 1);
      var prev := h + Frames(n - 1);
      assert h + Frames(n) == prev + [StartOfFrame];
      RunSnoc(prev, StartOfFrame);
      RunInv(prev);
      assert Run(prev + [StartOfFrame]).submitted == Run(prev).submitted + [Packet()];
      assert seq(n - 1, _ => Packet()) + [Packet()] == seq(n, _ => Packet());
    } else {
      assert h + Frames(0) == h;
    }
  }

  /** While not streaming, frames change nothing. */
  lemma {:induction false} FramesWhileIdle(h: seq<Event>, n: nat)
    requires !Ready(Run(h))
    ensures Run(h + Frames(n)) == Run(h)
  {
    if n > 0 {
      FramesWhileIdle(h, n - 1);
      var g := h + Frames(n);
      assert g[..|g| - 1] == h + Frames(n - 1);
    } else {
      assert h + Frames(0) == h;
    }
  }

  /** Enumeration, selecting alternate setting 1 and ten frames give ten
      packets; selecting alternate setting 0 then stops the stream. */
  lemma StreamScenario()
    ensures var h := [SetConfiguration(1), SetAltsetting(1, 1)] + Frames(10);
      && |Run(h).submitted| == 10
      && var h2 := h + [SetAltsetting(1, 0)];
         !Run(h2).streaming && Run(h2 + Frames(5)).submitted == Run(h).submitted
  {
    var h0 := [SetConfiguration(1), SetAltsetting(1, 1)];
    assert h0[..1] == [SetConfiguration(1)];
    assert [SetConfiguration(1)][..0] == [];
    assert Ready(Run(h0));
    FramesWhileStreaming(h0, 10);
    var h := h0 + Frames(10);
    var h2 := h + [SetAltsetting(1, 0)];
    assert h2[..|h2| - 1] == h;
    RunInv(h);
    FramesWhileIdle(h2, 5);
  }

  // ===========================================================================
  // The callbacks on the firmware's static state
  // ===========================================================================

  /** The firmware's module-level streaming state: the three flags the
      callbacks share, the registration the stack holds, the static `pcm`
      buffer, the packets handed to the endpoint and the events delivered
      so far. */
  class AudioFunction {
    var configured: bool
    var streaming: bool
    var devPresent: bool
    var callbacksRegistered: bool
    const pcm: array<Byte>
    ghost var submitted: seq<seq<Byte>>
    ghost var history: seq<Event>

    predicate Valid()
      reads this
    {
      pcm.Length == AUDIO_PACKET_SIZE
    }

    ghost function Abstract(): State
      reads this
    {
      State(configured, streaming, devPresent, callbacksRegistered, submitted)
    }

    /** The fields are the state the delivered events lead to. */
    ghost predicate Tracked()
      reads this
    {
      Abstract() == Run(history)
    }

    /** Reset: all flags false, `audio_dev` NULL, `pcm` zeroed (static
        storage). */
    constructor ()
      ensures Valid() && Tracked() && history == []
      ensures Abstract() == Initial
      ensures fresh(pcm) && forall k | 0 <= k < pcm.Length :: pcm[k] == 0
    {
      configured := false;
      streaming := false;
      devPresent := false;
      callbacksRegistered := false;
      pcm := new Byte[AUDIO_PACKET_SIZE](_ => 0);
      submitted := [];
      history := [];
    }

    /** `usb_set_config`: keep the handle, mark configured, set up the
        endpoint, register the altsetting and SOF callbacks. The streaming
        flag is not cleared. */
    method SetConfig(wValue: nat)
      modifies this
      ensures configured && devPresent && callbacksRegistered
      ensures streaming == old(streaming) && submitted == old(submitted) && history == old(history)
    {
      devPresent := true;
      configured := true;
      callbacksRegistered := true;
    }

    /** `audio_set_interface`. */
    method SetInterface(iface: nat, alt: nat)
      modifies this
      ensures streaming == if iface == IFACE_AUDIO_STREAM as nat then alt == 1 else old(streaming)
      ensures configured == old(configured) && devPresent == old(devPresent)
      ensures callbacksRegistered == old(callbacksRegistered)
      ensures submitted == old(submitted) && history == old(history)
    {
      if iface == IFACE_AUDIO_STREAM as nat {
        streaming := alt == 1;
      }
    }

    /** `audio_sof_callback`: unless configured, streaming and holding a
        handle, return at once; otherwise write the sample into each of the
        48 slots of `pcm` and submit the whole buffer. */
    method Sof()
      requires Valid()
      modifies this, pcm
      ensures Valid()
      ensures Ready(old(Abstract())) ==> pcm[..] == Packet() && submitted == old(submitted) + [Packet()]
      ensures !Ready(old(Abstract())) ==> pcm[..] == old(pcm[..]) && submitted == old(submitted)
      ensures configured == old(configured) && streaming == old(streaming)
      ensures devPresent == old(devPresent) && callbacksRegistered == old(callbacksRegistered)
      ensures history == old(history)
    {
      if !configured || !streaming || !devPresent {
        return;
      }
      FillPcm();
      submitted := submitted + [pcm[..]];
    }

    /** The loop of `audio_sof_callback`: slot `i` of `pcm` gets the low
        byte of the sample at `2i` and its high byte at `2i + 1`. */
    method FillPcm()
      requires Valid()
      modifies pcm
      ensures pcm[..] == Packet()
    {
      var sample := SAMPLE;
      for i := 0 to AUDIO_PACKET_SIZE / 2
        invariant forall k | 0 <= k < 2 * i :: pcm[k] == Packet()[k]
      {
        PacketPair(i);
        pcm[2 * i] := SampleBytes(sample)[0];
        pcm[2 * i + 1] := SampleBytes(sample)[1];
      }
    }

    /** The stack delivers SET_CONFIGURATION to `usb_set_config`. */
    method OnSetConfiguration(wValue: nat)
      requires Valid() && Tracked()
      modifies this
      ensures Valid() && Tracked() && history == old(history) + [SetConfiguration(wValue)]
    {
      ghost var s0 := Abstract();
      SetConfig(wValue);
      assert Abstract() == Step(s0, SetConfiguration(wValue));
      RunSnoc(history, SetConfiguration(wValue));
      history := history + [SetConfiguration(wValue)];
    }

    /** The stack delivers SET_INTERFACE to the registered altsetting
        callback, if any. */
    method OnSetInterface(iface: nat, alt: nat)
      requires Valid() && Tracked()
      modifies this
      ensures Valid() && Tracked() && history == old(history) + [SetAltsetting(iface, alt)]
    {
      ghost var s0 := Abstract();
      if callbacksRegistered {
        SetInterface(iface, alt);
      }
      assert Abstract() == Step(s0, SetAltsetting(iface, alt));
      RunSnoc(history, SetAltsetting(iface, alt));
      history := history + [SetAltsetting(iface, alt)];
    }

    /** The stack delivers a start of frame to the registered SOF callback,
        if any. */
    method OnStartOfFrame()
      requires Valid() && Tracked()
      modifies this, pcm
      ensures Valid() && Tracked() && history == old(history) + [StartOfFrame]
      ensures |submitted| <= |old(submitted)| + 1
    {
      ghost var s0 := Abstract();
      if callbacksRegistered {
        Sof();
      }
      assert Abstract() == Step(s0, StartOfFrame);
      RunSnoc(history, StartOfFrame);
      history := history + [StartOfFrame];
    }
  }
}
