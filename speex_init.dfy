/**
 * encode_init of the libspeex encoder adapter as a pure decision: from the
 * caller's configuration and the values libspeex reports back, either an
 * error or the settings the session runs with (the Speex header, the single
 * rate-control mode, the control requests pushed to libspeex, and what is
 * reported back to the caller).
 */
module SpeexInit {
  import opened Wrappers

  /** Speex's three coding modes, each tied to one sample rate. */
  datatype Mode = Narrowband | Wideband | UltraWideband

  /** The sample rate a mode codes. */
  function SampleRateOf(m: Mode): (rate: int)
  {
    match m
    case Narrowband => 8000
    case Wideband => 16000
    case UltraWideband => 32000
  }

  /** The mode for a sample rate; only the three rates Speex codes have one. */
  function ModeForSampleRate(rate: int): (m: Option<Mode>)
    ensures m.Some? <==> rate == 8000 || rate == 16000 || rate == 32000
    ensures m.Some? ==> SampleRateOf(m.value) == rate
  {
    if rate == 8000 then Some(Narrowband)
    else if rate == 16000 then Some(Wideband)
    else if rate == 32000 then Some(UltraWideband)
    else None
  }

  /** Every mode is found again from its own sample rate. */
  lemma ModeRateRoundTrip(m: Mode)
    ensures ModeForSampleRate(SampleRateOf(m)) == Some(m)
  {
  }

  /** The codec context's "compression level not set" value (FF_COMPRESSION_DEFAULT). */
  const CompressionDefault: int := -1

  /** Bits per second added to the reported bitrate for stereo side information. */
  const StereoOverhead: int := 800

  /** Bounds of the complexity pushed to libspeex. */
  const MinComplexity: int := 0
  const MaxComplexity: int := 10

  /** Bounds of the VBR quality pushed to libspeex. */
  const MinVbrQuality: real := 0.0
  const MaxVbrQuality: real := 10.0

  /** Clamping of an integer into [lo, hi] (av_clip). */
  function ClampInt(x: int, lo: int, hi: int): (r: int)
    requires lo <= hi
    ensures lo <= r <= hi
    ensures lo <= x <= hi ==> r == x
    ensures forall y :: lo <= y <= hi ==> Dist(r, x) <= Dist(y, x)
  {
    if x < lo then lo else if x > hi then hi else x
  }

  /** The distance between two integers. */
  function Dist(a: int, b: int): (d: nat)
  {
    if a <= b then b - a else a - b
  }

  /** Clamping of a real into [lo, hi] (av_clipf, over exact reals). */
  function ClampReal(x: real, lo: real, hi: real): (r: real)
    requires lo <= hi
    ensures lo <= r <= hi
    ensures lo <= x <= hi ==> r == x
    ensures forall y :: lo <= y <= hi ==> DistReal(r, x) <= DistReal(y, x)
  {
    if x < lo then lo else if x > hi then hi else x
  }

  /** The distance between two reals. */
  function DistReal(a: real, b: real): (d: real)
  {
    if a <= b then b - a else a - b
  }

  /**
   * What the caller configures before encode_init: the codec context fields
   * the adapter reads and the adapter's own options (abr, cbr_quality,
   * frames_per_packet). `vbrQuality` stands for global_quality divided by
   * FF_QP2LAMBDA.
   */
  datatype Config = Config(
    channels: int,
    sampleRate: int,
    qscale: bool,
    vbrQuality: real,
    bitRate: int,
    compressionLevel: int,
    abr: int,
    cbrQuality: int,
    framesPerPacket: int)

  /** The ranges the option table imposes on the adapter's own options. */
  predicate OptionsInRange(c: Config)
  {
    0 <= c.abr <= 1 && 0 <= c.cbrQuality <= 10 && 1 <= c.framesPerPacket <= 8
  }

  /**
   * A configuration that sets only channels and sample rate: the option
   * defaults (abr off, cbr_quality 8, one frame per packet) and the codec
   * defaults (bit rate 0, compression level 3).
   */
  function DefaultConfig(channels: int, sampleRate: int): (c: Config)
    ensures OptionsInRange(c)
    ensures c.channels == channels && c.sampleRate == sampleRate
  {
    Config(channels, sampleRate, false, 0.0, 0, 3, 0, 8, 1)
  }

  /** The values libspeex and the allocator hand back during encode_init. */
  datatype LibraryReport = LibraryReport(
    encoderCreated: bool,    // speex_encoder_init returned a state
    negotiatedBitrate: int,  // SPEEX_GET_ABR or SPEEX_GET_BITRATE
    complexity: int,         // SPEEX_GET_COMPLEXITY
    frameSize: int,          // the frame size speex_init_header records
    lookahead: int,          // SPEEX_GET_LOOKAHEAD
    buffersAllocated: bool)  // extradata and coded_frame were allocated

  /** The errors encode_init returns. */
  datatype InitError =
    | InvalidArgument    // AVERROR(EINVAL)
    | EncoderInitFailed  // -1
    | OutOfMemory        // AVERROR(ENOMEM)

  /** The control requests the adapter pushes to libspeex (speex_encoder_ctl SET calls). */
  datatype Control =
    | SetVbr(flag: int)
    | SetVbrQuality(quality: real)
    | SetAbr(bitrate: int)
    | SetBitrate(bitrate: int)
    | SetQuality(level: int)
    | SetComplexity(complexity: int)

  /** The rate-control mode of a session: exactly one is chosen at initialisation. */
  datatype RateControl =
    | Vbr(quality: real)
    | Abr(bitrate: int)
    | CbrBitrate(bitrate: int)
    | CbrQuality(level: int)

  /**
   * The rate-control choice. The quality-scale flag wins; otherwise a
   * positive bit rate gives ABR when the abr option is set and CBR when it
   * is not; otherwise CBR by the cbr_quality option.
   */
  function SelectRateControl(c: Config): (rc: RateControl)
    ensures rc.Vbr? <==> c.qscale
    ensures rc.Abr? <==> !c.qscale && c.bitRate > 0 && c.abr != 0
    ensures rc.CbrBitrate? <==> !c.qscale && c.bitRate > 0 && c.abr == 0
    ensures rc.CbrQuality? <==> !c.qscale && c.bitRate <= 0
    ensures rc.Vbr? ==> MinVbrQuality <= rc.quality <= MaxVbrQuality
    ensures rc.Vbr? && MinVbrQuality <= c.vbrQuality <= MaxVbrQuality ==> rc.quality == c.vbrQuality
    ensures rc.Vbr? && c.vbrQuality < MinVbrQuality ==> rc.quality == MinVbrQuality
    ensures rc.Vbr? && c.vbrQuality > MaxVbrQuality ==> rc.quality == MaxVbrQuality
    ensures (rc.Abr? || rc.CbrBitrate?) ==> rc.bitrate == c.bitRate
    ensures rc.CbrQuality? ==> rc.level == c.cbrQuality
  {
    if c.qscale then Vbr(ClampReal(c.vbrQuality, MinVbrQuality, MaxVbrQuality))
    else if c.bitRate > 0 then
      if c.abr != 0 then Abr(c.bitRate) else CbrBitrate(c.bitRate)
    else CbrQuality(c.cbrQuality)
  }

  /** The requests that put libspeex into a rate-control mode. */
  function RateControlRequests(rc: RateControl): (cs: seq<Control>)
    ensures RateControlOf(cs) == Some(rc)
  {
    match rc
    case Vbr(q) =>
      var cs := [SetVbr(1), SetVbrQuality(q)];
      assert cs[1..] == [SetVbrQuality(q)] && cs[1..][1..] == [];
      assert RateRequestsIn(cs[1..]) == [SetVbrQuality(q)];
      assert RateRequestsIn(cs) == cs;
      cs
    case Abr(b) => [SetAbr(b)]
    case CbrBitrate(b) => [SetBitrate(b)]
    case CbrQuality(q) => [SetQuality(q)]
  }

  /** The complexity request: sent only for a compression level above the default, clamped. */
  function ComplexityRequests(level: int): (cs: seq<Control>)
    ensures cs != [] <==> level > CompressionDefault
    ensures |cs| <= 1
    ensures forall k :: 0 <= k < |cs| ==>
      cs[k].SetComplexity? && MinComplexity <= cs[k].complexity <= MaxComplexity
    ensures cs != [] && level <= MaxComplexity ==> cs[0].complexity == level
    ensures cs != [] && level > MaxComplexity ==> cs[0].complexity == MaxComplexity
  {
    if level > CompressionDefault then [SetComplexity(ClampInt(level, MinComplexity, MaxComplexity))]
    else []
  }

  /** The Speex header descriptor the adapter fills (bitrate None: left as libspeex set it). */
  datatype SpeexHeader = SpeexHeader(
    rate: int,
    nbChannels: int,
    mode: Mode,
    vbr: bool,
    bitrate: Option<int>,
    frameSize: int,
    framesPerPacket: int)

  /** What a successful encode_init leaves behind. */
  datatype Settings = Settings(
    header: SpeexHeader,
    rateControl: RateControl,
    controls: seq<Control>,   // SET requests pushed to libspeex, in order
    bitRate: int,             // the codec context's bit_rate afterwards
    compressionLevel: int,    // the codec context's compression_level afterwards
    frameSize: int,           // the codec context's frame_size afterwards
    delay: int)               // the codec context's delay afterwards

  /** The bit rate reported to the caller in the bitrate-managed modes. */
  function WithStereoOverhead(bitrate: int, channels: int): (reported: int)
  {
    bitrate + (if channels == 2 then StereoOverhead else 0)
  }

  /**
   * encode_init. Checks run in the source's order: channels, sample rate,
   * creation of the libspeex encoder, then allocation of the header and
   * coded-frame buffers.
   */
  function EncodeInit(c: Config, lib: LibraryReport): (r: Result<Settings, InitError>)
    ensures r == Failure(InvalidArgument) <==>
      !(1 <= c.channels <= 2) || ModeForSampleRate(c.sampleRate).None?
    ensures r == Failure(EncoderInitFailed) <==>
      1 <= c.channels <= 2 && ModeForSampleRate(c.sampleRate).Some? && !lib.encoderCreated
    ensures r == Failure(OutOfMemory) <==>
      1 <= c.channels <= 2 && ModeForSampleRate(c.sampleRate).Some? && lib.encoderCreated && !lib.buffersAllocated
    ensures r.Success? ==>
      && r.value.header.rate == c.sampleRate
      && r.value.header.nbChannels == c.channels
      && SampleRateOf(r.value.header.mode) == c.sampleRate
      && r.value.header.vbr == c.qscale
      && r.value.header.framesPerPacket == c.framesPerPacket
      && r.value.header.frameSize == r.value.frameSize == lib.frameSize
      && r.value.compressionLevel == lib.complexity
      && r.value.delay == lib.lookahead
      && r.value.rateControl == SelectRateControl(c)
  {
    if c.channels < 1 || c.channels > 2 then Failure(InvalidArgument)
    else match ModeForSampleRate(c.sampleRate)
      case None => Failure(InvalidArgument)
      case Some(mode) =>
        if !lib.encoderCreated then Failure(EncoderInitFailed)
        else
          var rc := SelectRateControl(c);
          var controls := RateControlRequests(rc) + ComplexityRequests(c.compressionLevel);
          var headerBitrate := if rc.Vbr? then None else Some(lib.negotiatedBitrate);
          var bitRate := if rc.Vbr? then c.bitRate else WithStereoOverhead(lib.negotiatedBitrate, c.channels);
          var header := SpeexHeader(c.sampleRate, c.channels, mode, rc.Vbr?, headerBitrate,
                                    lib.frameSize, c.framesPerPacket);
          if !lib.buffersAllocated then Failure(OutOfMemory)
          else Success(Settings(header, rc, controls, bitRate, lib.complexity, lib.frameSize, lib.lookahead))
  }

  /** A channel count other than 1 or 2 is refused whatever libspeex would have done. */
  lemma ChannelsCheckedFirst(c: Config, lib1: LibraryReport, lib2: LibraryReport)
    requires c.channels < 1 || c.channels > 2
    ensures EncodeInit(c, lib1) == EncodeInit(c, lib2) == Failure(InvalidArgument)
  {
  }

  /** With valid channels, the supported sample rates and only those get past the mode lookup. */
  lemma SampleRateSelectsMode(c: Config, lib: LibraryReport)
    requires 1 <= c.channels <= 2 && lib.encoderCreated && lib.buffersAllocated
    ensures EncodeInit(c, lib).Success? <==>
      c.sampleRate == 8000 || c.sampleRate == 16000 || c.sampleRate == 32000
    ensures c.sampleRate == 8000 ==> EncodeInit(c, lib).value.header.mode == Narrowband
    ensures c.sampleRate == 16000 ==> EncodeInit(c, lib).value.header.mode == Wideband
    ensures c.sampleRate == 32000 ==> EncodeInit(c, lib).value.header.mode == UltraWideband
  {
  }

  /** The rate requests among a sequence of control requests, in order. */
  function RateRequestsIn(cs: seq<Control>): (rs: seq<Control>)
    ensures |rs| <= |cs|
    ensures forall k :: 0 <= k < |rs| ==> !rs[k].SetComplexity?
  {
    if cs == [] then []
    else (if cs[0].SetComplexity? then [] else [cs[0]]) + RateRequestsIn(cs[1..])
  }

  lemma {:induction false} RateRequestsInAppend(a: seq<Control>, b: seq<Control>)
    ensures RateRequestsIn(a + b) == RateRequestsIn(a) + RateRequestsIn(b)
  {
    if a == [] {
      assert a + b == b;
    } else {
      assert (a + b)[1..] == a[1..] + b;
      RateRequestsInAppend(a[1..], b);
    }
  }

  /**
   * The rate-control mode libspeex is left in by a sequence of requests,
   * when the rate requests among them are those of exactly one mode.
   */
  function RateControlOf(cs: seq<Control>): (rc: Option<RateControl>)
  {
    var rs := RateRequestsIn(cs);
    if |rs| == 2 && rs[0] == SetVbr(1) && rs[1].SetVbrQuality? then Some(Vbr(rs[1].quality))
    else if |rs| == 1 then
      match rs[0]
      case SetAbr(b) => Some(Abr(b))
      case SetBitrate(b) => Some(CbrBitrate(b))
      case SetQuality(q) => Some(CbrQuality(q))
      case _ => None
    else None
  }

  /**
   * The requests pushed by a successful initialisation put libspeex into
   * exactly the selected rate-control mode, and no other rate request is sent.
   */
  lemma ControlsRealizeRateControl(c: Config, lib: LibraryReport)
    requires EncodeInit(c, lib).Success?
    ensures RateControlOf(EncodeInit(c, lib).value.controls) == Some(SelectRateControl(c))
  {
    var rc := SelectRateControl(c);
    var rr := RateRequestsIn(ComplexityRequests(c.compressionLevel));
    RateRequestsInAppend(RateControlRequests(rc), ComplexityRequests(c.compressionLevel));
    assert rr == [];
    assert RateRequestsIn(RateControlRequests(rc)) == RateControlRequests(rc);
  }

  /**
   * Outside VBR the reported bit rate is the negotiated one plus 800 for
   * stereo; VBR leaves the caller's bit rate as it was.
   */
  lemma InitReportedBitRate(c: Config, lib: LibraryReport)
    requires EncodeInit(c, lib).Success?
    ensures c.qscale ==> EncodeInit(c, lib).value.bitRate == c.bitRate
    ensures !c.qscale && c.channels == 2 ==>
      EncodeInit(c, lib).value.bitRate == lib.negotiatedBitrate + 800
    ensures !c.qscale && c.channels == 1 ==>
      EncodeInit(c, lib).value.bitRate == lib.negotiatedBitrate
    ensures EncodeInit(c, lib).value.header.bitrate ==
      if c.qscale then None else Some(lib.negotiatedBitrate)
  {
  }

  /**
   * A single complexity request is sent exactly when the compression level
   * is above the default, clamped into [0, 10]; the reported compression level
   * is always the value libspeex reads back.
   */
  lemma InitComplexity(c: Config, lib: LibraryReport)
    requires EncodeInit(c, lib).Success?
    ensures var s := EncodeInit(c, lib).value;
      && (exists k :: 0 <= k < |s.controls| && s.controls[k].SetComplexity?) <==> c.compressionLevel > -1
    ensures var s := EncodeInit(c, lib).value;
      forall k :: 0 <= k < |s.controls| && s.controls[k].SetComplexity? ==>
        && 0 <= s.controls[k].complexity <= 10
        && (0 <= c.compressionLevel <= 10 ==> s.controls[k].complexity == c.compressionLevel)
        && (c.compressionLevel > 10 ==> s.controls[k].complexity == 10)
    ensures var s := EncodeInit(c, lib).value;
      forall j, k ::
        (0 <= j < |s.controls| && 0 <= k < |s.controls|
         && s.controls[j].SetComplexity? && s.controls[k].SetComplexity?) ==> j == k
    ensures EncodeInit(c, lib).value.compressionLevel == lib.complexity
  {
    var s := EncodeInit(c, lib).value;
    var rr := RateControlRequests(SelectRateControl(c));
    var cr := ComplexityRequests(c.compressionLevel);
    assert s.controls == rr + cr;
    if c.compressionLevel > -1 {
      assert s.controls[|rr|] == cr[0];
    }
  }

  /**
   * What encode_init asks of libspeex depends on the configuration alone,
   * not on the values libspeex reports back.
   */
  lemma RequestsIndependentOfReadback(c: Config, lib1: LibraryReport, lib2: LibraryReport)
    requires EncodeInit(c, lib1).Success? && EncodeInit(c, lib2).Success?
    ensures EncodeInit(c, lib1).value.controls == EncodeInit(c, lib2).value.controls
    ensures EncodeInit(c, lib1).value.rateControl == EncodeInit(c, lib2).value.rateControl
    ensures EncodeInit(c, lib1).value.header.mode == EncodeInit(c, lib2).value.header.mode
  {
  }

  /**
   * With nothing but channels and a supported sample rate configured, the
   * session runs CBR at quality 8 and pushes complexity 3.
   */
  lemma DefaultsGiveCbrQuality(channels: int, sampleRate: int, lib: LibraryReport)
    requires EncodeInit(DefaultConfig(channels, sampleRate), lib).Success?
    ensures EncodeInit(DefaultConfig(channels, sampleRate), lib).value.rateControl == CbrQuality(8)
    ensures EncodeInit(DefaultConfig(channels, sampleRate), lib).value.controls ==
      [SetQuality(8), SetComplexity(3)]
  {
  }
}
