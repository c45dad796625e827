/**
 * The encoder adapter's context as an object: the session constants fixed
 * by initialisation, and the packet counters, running timestamp and bit
 * writer that encode_frame updates in place.
 */
module SpeexEncoder {
  import opened Wrappers
  import opened SpeexBits
  import SpeexInit
  import opened SpeexPacketizer

  /** The session constants a successful initialisation hands to encode_frame. */
  function ParamsOf(s: SpeexInit.Settings): (p: Params)
  {
    Params(s.header.nbChannels, s.header.framesPerPacket, s.frameSize, s.delay)
  }

  /**
   * A successful initialisation, with options inside their declared ranges
   * and a positive frame size from libspeex, gives valid session constants
   * taken from the caller's channels and frames_per_packet and libspeex's
   * frame size and lookahead.
   */
  lemma InitGivesValidParams(c: SpeexInit.Config, lib: SpeexInit.LibraryReport)
    requires SpeexInit.OptionsInRange(c) && lib.frameSize > 0
    requires SpeexInit.EncodeInit(c, lib).Success?
    ensures ValidParams(ParamsOf(SpeexInit.EncodeInit(c, lib).value))
    ensures ParamsOf(SpeexInit.EncodeInit(c, lib).value) ==
      Params(c.channels, c.framesPerPacket, lib.frameSize, lib.lookahead)
  {
  }

  class LibSpeexEncoder {
    const channels: int
    const framesPerPacket: int
    const frameSize: int
    const delay: int
    /** Conversion from the sample-rate time base to the caller's (ff_samples_to_time_base). */
    const toTimeBase: int -> int

    var bits: seq<bool>
    var pktFrameCount: int
    var pktSampleCount: int
    var nextPts: int
    /** The timestamp of the coded frame, once a packet has been completed. */
    var codedPts: Option<int>

    /** The fixed parameters of the session. */
    function Consts(): (p: Params)
    {
      Params(channels, framesPerPacket, frameSize, delay)
    }

    /** The packet state held in the fields. */
    function State(): (s: PacketState)
      reads this
    {
      PacketState(pktFrameCount, pktSampleCount, nextPts, bits)
    }

    ghost predicate Valid()
      reads this
    {
      ValidParams(Consts()) && Inv(Consts(), State())
    }

    /** The context as initialisation leaves it: nothing pending and an empty bit writer. */
    constructor (settings: SpeexInit.Settings, toTimeBase: int -> int)
      requires ValidParams(ParamsOf(settings))
      ensures Valid()
      ensures Consts() == ParamsOf(settings) && this.toTimeBase == toTimeBase
      ensures State() == Initial && codedPts == None
    {
      channels := settings.header.nbChannels;
      framesPerPacket := settings.header.framesPerPacket;
      frameSize := settings.frameSize;
      delay := settings.delay;
      this.toTimeBase := toTimeBase;
      bits := [];
      pktFrameCount := 0;
      pktSampleCount := 0;
      nextPts := 0;
      codedPts := None;
    }

    /**
     * encode_frame: one call with a frame's bits or end of stream, and an
     * output buffer of `bufSize` bytes.
     */
    method EncodeFrame(input: Input, bufSize: int) returns (outcome: Outcome)
      requires Valid()
      modifies this
      ensures Valid()
      ensures StepResult(State(), outcome) == Step(Consts(), old(State()), input, bufSize)
      ensures codedPts == if outcome.Emits() then Some(toTimeBase(outcome.pts)) else old(codedPts)
    {
      StepKeepsInv(Consts(), State(), input, bufSize);
      match input {
        case Samples(stereoBits, monoBits) =>
          if channels == 2 {
            bits := bits + stereoBits;
          }
          bits := bits + monoBits;
          pktFrameCount := pktFrameCount + 1;
          pktSampleCount := pktSampleCount + frameSize;
          assert State() == AddFrame(Consts(), old(State()), stereoBits, monoBits);
        case EndOfStream =>
          if pktFrameCount == 0 {
            return NoPacket;
          }
          AddTerminators();
      }
      outcome := CompletePacket(bufSize);
    }

    /** Fills the unused frame slots of the packet with terminator codes. */
    method AddTerminators()
      requires pktFrameCount <= framesPerPacket
      modifies this
      ensures State() == PadToPacket(Consts(), old(State()))
      ensures codedPts == old(codedPts)
    {
      ghost var count0 := pktFrameCount;
      ghost var bits0 := bits;
      while pktFrameCount < framesPerPacket
        invariant count0 <= pktFrameCount <= framesPerPacket
        invariant bits == bits0 + Terminators(pktFrameCount - count0)
        invariant pktSampleCount == old(pktSampleCount) && nextPts == old(nextPts)
        invariant codedPts == old(codedPts)
      {
        bits := bits + TerminatorCode();
        pktFrameCount := pktFrameCount + 1;
      }
    }

    /**
     * Completes the packet when it is full: timestamps it, advances next_pts,
     * resets the counters, and writes out and clears the bits when the buffer
     * is larger than their byte count.
     */
    method CompletePacket(bufSize: int) returns (outcome: Outcome)
      modifies this
      ensures StepResult(State(), outcome) == Flush(Consts(), old(State()), bufSize)
      ensures codedPts == if outcome.Emits() then Some(toTimeBase(outcome.pts)) else old(codedPts)
    {
      if pktFrameCount == framesPerPacket {
        pktFrameCount := 0;
        var pts := nextPts - delay;
        codedPts := Some(toTimeBase(pts));
        nextPts := nextPts + pktSampleCount;
        pktSampleCount := 0;
        if bufSize > NBytes(bits) {
          outcome := Written(bits, NBytes(bits), pts);
          bits := [];
        } else {
          outcome := BufferTooSmall(pts);
        }
      } else {
        outcome := NoPacket;
      }
    }
  }
}
