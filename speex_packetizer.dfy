/**
 * The packetization performed by encode_frame, as a specification over
 * values: one call appends a frame's bits (or, at end of stream, terminator
 * codes for the unused frame slots), and once frames_per_packet frames are
 * pending it timestamps the packet, advances the running timestamp, resets
 * the counters and either hands out the bits or reports that the caller's
 * buffer is too small.
 */
module SpeexPacketizer {
  import opened SpeexBits

  /** The session constants encode_frame reads. */
  datatype Params = Params(
    channels: int,
    framesPerPacket: int,
    frameSize: int,   // samples per frame
    delay: int)       // encoder lookahead, in samples

  /** Session constants as a successful initialisation leaves them. */
  predicate ValidParams(p: Params)
  {
    1 <= p.framesPerPacket <= 8 && p.frameSize > 0
  }

  /** The adapter's mutable packet state. */
  datatype PacketState = PacketState(
    frameCount: int,    // frames in the packet being built
    sampleCount: int,   // samples in the packet being built
    nextPts: int,       // timestamp of the next packet, before the delay is taken off
    bits: seq<bool>)    // the bit writer's contents

  /** The packet state right after initialisation. */
  const Initial: PacketState := PacketState(0, 0, 0, [])

  /** What holds between two calls. */
  predicate Inv(p: Params, s: PacketState)
  {
    0 <= s.frameCount < p.framesPerPacket && s.sampleCount == s.frameCount * p.frameSize
  }

  /**
   * One call's input: a frame of samples, given by the bits libspeex's
   * stereo transform and frame encoder append for it, or end of stream.
   */
  datatype Input =
    | Samples(stereoBits: seq<bool>, monoBits: seq<bool>)
    | EndOfStream

  /** The result of one call. */
  datatype Outcome =
    | NoPacket
    | Written(payload: seq<bool>, size: nat, pts: int)
    | BufferTooSmall(pts: int)
  {
    /** The call completed a packet, whether or not it could be written. */
    predicate Emits()
    {
      !NoPacket?
    }
  }

  /** The bits appended for a frame: stereo side information first when there are two channels. */
  function FrameBits(p: Params, stereoBits: seq<bool>, monoBits: seq<bool>): (bits: seq<bool>)
  {
    (if p.channels == 2 then stereoBits else []) + monoBits
  }

  /** The state after a frame of samples has been encoded. */
  function AddFrame(p: Params, s: PacketState, stereoBits: seq<bool>, monoBits: seq<bool>): (r: PacketState)
    ensures r.frameCount == s.frameCount + 1 && r.nextPts == s.nextPts
    ensures r.sampleCount == s.sampleCount + p.frameSize
    ensures |r.bits| == |s.bits| + |monoBits| + (if p.channels == 2 then |stereoBits| else 0)
    ensures r.bits[..|s.bits|] == s.bits
  {
    PacketState(s.frameCount + 1, s.sampleCount + p.frameSize, s.nextPts,
                s.bits + FrameBits(p, stereoBits, monoBits))
  }

  /**
   * What a frame leaves after the bits already in the writer: the stereo
   * side information, when there are two channels, then the mono frame.
   */
  lemma AddFrameAppends(p: Params, s: PacketState, stereoBits: seq<bool>, monoBits: seq<bool>)
    ensures AddFrame(p, s, stereoBits, monoBits).bits[|s.bits|..]
      == if p.channels == 2 then stereoBits + monoBits else monoBits
  {
  }

  /** The state after the unused frame slots have been filled with terminator codes. */
  function PadToPacket(p: Params, s: PacketState): (r: PacketState)
    ensures s.frameCount <= p.framesPerPacket ==> r.frameCount == p.framesPerPacket
    ensures r.sampleCount == s.sampleCount && r.nextPts == s.nextPts
    ensures |r.bits| == |s.bits| + 5 * (if s.frameCount < p.framesPerPacket then p.framesPerPacket - s.frameCount else 0)
    ensures r.bits[..|s.bits|] == s.bits
  {
    if s.frameCount < p.framesPerPacket then
      s.(frameCount := p.framesPerPacket,
         bits := s.bits + Terminators(p.framesPerPacket - s.frameCount))
    else s
  }

  datatype StepResult = StepResult(state: PacketState, outcome: Outcome)

  /** Emission once the packet is full; otherwise nothing happens. */
  function Flush(p: Params, s: PacketState, bufSize: int): (r: StepResult)
    ensures r.outcome.Emits() <==> s.frameCount == p.framesPerPacket
    ensures !r.outcome.Emits() ==> r.state == s
    ensures r.outcome.Emits() ==>
      && r.outcome.pts == s.nextPts - p.delay
      && r.state.frameCount == 0 && r.state.sampleCount == 0
      && r.state.nextPts == s.nextPts + s.sampleCount
    ensures r.outcome.Written? <==> r.outcome.Emits() && bufSize > NBytes(s.bits)
    ensures r.outcome.Written? ==>
      r.outcome.payload == s.bits && r.outcome.size < bufSize && r.state.bits == []
    ensures r.outcome.BufferTooSmall? ==> r.state.bits == s.bits
  {
    if s.frameCount == p.framesPerPacket then
      var pts := s.nextPts - p.delay;
      var reset := PacketState(0, 0, s.nextPts + s.sampleCount, s.bits);
      if bufSize > NBytes(s.bits) then
        StepResult(reset.(bits := []), Written(s.bits, NBytes(s.bits), pts))
      else
        StepResult(reset, BufferTooSmall(pts))
    else
      StepResult(s, NoPacket)
  }

  /** One call of encode_frame with an output buffer of `bufSize` bytes. */
  function Step(p: Params, s: PacketState, input: Input, bufSize: int): (r: StepResult)
    ensures input.EndOfStream? && s.frameCount == 0 ==> r == StepResult(s, NoPacket)
    ensures input.Samples? ==> (r.outcome.Emits() <==> s.frameCount + 1 == p.framesPerPacket)
    ensures input.EndOfStream? && 0 < s.frameCount <= p.framesPerPacket ==> r.outcome.Emits()
    ensures r.outcome.Emits() ==>
      && r.outcome.pts == s.nextPts - p.delay
      && r.state.frameCount == 0 && r.state.sampleCount == 0
    ensures !r.outcome.Emits() ==> r.state.nextPts == s.nextPts
  {
    match input
    case Samples(stereoBits, monoBits) => Flush(p, AddFrame(p, s, stereoBits, monoBits), bufSize)
    case EndOfStream =>
      if s.frameCount == 0 then StepResult(s, NoPacket)
      else Flush(p, PadToPacket(p, s), bufSize)
  }

  /** A call: its input and the size of the output buffer it offers. */
  datatype Call = Call(input: Input, bufSize: int)

  datatype Trace = Trace(state: PacketState, outcomes: seq<Outcome>)

  /** A sequence of calls, from state `s`. */
  function Run(p: Params, s: PacketState, calls: seq<Call>): (t: Trace)
    ensures |t.outcomes| == |calls|
    decreases |calls|
  {
    if calls == [] then Trace(s, [])
    else
      var r := Step(p, s, calls[0].input, calls[0].bufSize);
      var rest := Run(p, r.state, calls[1..]);
      Trace(rest.state, [r.outcome] + rest.outcomes)
  }

  /** The number of calls that carry samples. */
  function SampleCalls(calls: seq<Call>): (n: nat)
    ensures n <= |calls|
  {
    if calls == [] then 0 else (if calls[0].input.Samples? then 1 else 0) + SampleCalls(calls[1..])
  }

  /** The timestamps of the packets a sequence of outcomes completes, in order. */
  function EmittedPts(outs: seq<Outcome>): (pts: seq<int>)
  {
    if outs == [] then []
    else (if outs[0].Emits() then [outs[0].pts] else []) + EmittedPts(outs[1..])
  }

  predicate StrictlyIncreasing(xs: seq<int>)
  {
    forall i, j :: 0 <= i < j < |xs| ==> xs[i] < xs[j]
  }

  // ---------------------------------------------------------------------
  // One call

  /** Every call keeps the between-calls invariant: the frame count stays below frames_per_packet. */
  lemma StepKeepsInv(p: Params, s: PacketState, input: Input, bufSize: int)
    requires ValidParams(p) && Inv(p, s)
    ensures Inv(p, Step(p, s, input, bufSize).state)
    ensures Step(p, s, input, bufSize).state.nextPts >= s.nextPts
  {
  }

  /**
   * A call with samples adds exactly one frame and frame_size samples; it
   * completes a packet exactly when that frame is the last one the packet holds.
   */
  lemma SamplesStep(p: Params, s: PacketState, stereoBits: seq<bool>, monoBits: seq<bool>, bufSize: int)
    requires ValidParams(p) && Inv(p, s)
    ensures var r := Step(p, s, Samples(stereoBits, monoBits), bufSize);
      && (r.outcome.Emits() <==> s.frameCount + 1 == p.framesPerPacket)
      && (!r.outcome.Emits() ==>
            r.state == PacketState(s.frameCount + 1, s.sampleCount + p.frameSize, s.nextPts,
                                   s.bits + FrameBits(p, stereoBits, monoBits)))
  {
  }

  /** With one frame per packet every call with samples completes a packet. */
  lemma OneFramePerPacket(p: Params, s: PacketState, stereoBits: seq<bool>, monoBits: seq<bool>, bufSize: int)
    requires ValidParams(p) && Inv(p, s) && p.framesPerPacket == 1
    ensures Step(p, s, Samples(stereoBits, monoBits), bufSize).outcome.Emits()
  {
  }

  /** End of stream with nothing pending returns no packet and changes nothing. */
  lemma EndOfStreamIdle(p: Params, s: PacketState, bufSize: int)
    requires s.frameCount == 0
    ensures Step(p, s, EndOfStream, bufSize) == StepResult(s, NoPacket)
  {
  }

  /**
   * End of stream with frames pending appends one terminator code per unused
   * frame slot, counts no samples for them, and completes the packet.
   */
  lemma EndOfStreamPads(p: Params, s: PacketState, bufSize: int)
    requires ValidParams(p) && Inv(p, s) && s.frameCount > 0
    ensures var padded := PadToPacket(p, s);
      && padded.frameCount == p.framesPerPacket
      && padded.sampleCount == s.sampleCount
      && padded.bits == s.bits + Terminators(p.framesPerPacket - s.frameCount)
      && |padded.bits| == |s.bits| + 5 * (p.framesPerPacket - s.frameCount)
    ensures Step(p, s, EndOfStream, bufSize) == Flush(p, PadToPacket(p, s), bufSize)
    ensures Step(p, s, EndOfStream, bufSize).outcome.Emits()
  {
  }

  /**
   * A completed packet is stamped next_pts - delay, next_pts moves on by the
   * packet's samples and both counters go back to zero. The bits are handed
   * out and cleared when the buffer is larger than their byte count;
   * otherwise the call fails and the bits stay in the bit writer.
   */
  lemma FlushFullPacket(p: Params, s: PacketState, bufSize: int)
    requires s.frameCount == p.framesPerPacket
    ensures var r := Flush(p, s, bufSize);
      && r.outcome.Emits() && r.outcome.pts == s.nextPts - p.delay
      && r.state.nextPts == s.nextPts + s.sampleCount
      && r.state.frameCount == 0 && r.state.sampleCount == 0
      && (bufSize > NBytes(s.bits) ==>
            r.outcome == Written(s.bits, NBytes(s.bits), s.nextPts - p.delay) && r.state.bits == [])
      && (bufSize <= NBytes(s.bits) ==>
            r.outcome == BufferTooSmall(s.nextPts - p.delay) && r.state.bits == s.bits)
  {
  }

  /**
   * After a too-small buffer the packet's bits are still in the bit writer
   * but nothing is pending any more, so an end-of-stream call that follows
   * returns no packet and leaves those bits unwritten.
   */
  lemma TooSmallThenEndOfStream(p: Params, s: PacketState, input: Input, bufSize: int, retrySize: int)
    requires Step(p, s, input, bufSize).outcome.BufferTooSmall?
    ensures var after := Step(p, s, input, bufSize).state;
      && after.frameCount == 0
      && after.bits == (if input.Samples? then AddFrame(p, s, input.stereoBits, input.monoBits)
                        else PadToPacket(p, s)).bits
      && Step(p, after, EndOfStream, retrySize) == StepResult(after, NoPacket)
  {
  }

  // ---------------------------------------------------------------------
  // Runs of calls

  /** The between-calls invariant holds after any run of calls. */
  lemma {:induction false} RunKeepsInv(p: Params, s: PacketState, calls: seq<Call>)
    requires ValidParams(p) && Inv(p, s)
    ensures Inv(p, Run(p, s, calls).state)
    ensures Run(p, s, calls).state.nextPts >= s.nextPts
    decreases |calls|
  {
    if calls != [] {
      StepKeepsInv(p, s, calls[0].input, calls[0].bufSize);
      RunKeepsInv(p, Step(p, s, calls[0].input, calls[0].bufSize).state, calls[1..]);
    }
  }

  /** Multiplication distributes over a successor. */
  lemma MulSucc(a: int, n: int)
    ensures a * (n + 1) == a * n + a
  {
  }

  /** One call moves samples from pending into next_pts, never losing or inventing any. */
  lemma StepCountsSamples(p: Params, s: PacketState, input: Input, bufSize: int)
    requires ValidParams(p) && Inv(p, s)
    ensures var t := Step(p, s, input, bufSize).state;
      t.nextPts + t.sampleCount == s.nextPts + s.sampleCount + (if input.Samples? then p.frameSize else 0)
  {
  }

  /**
   * Every sample handed in is accounted for: pending samples plus the
   * running timestamp grow by frame_size per call with samples.
   */
  lemma {:induction false} RunCountsSamples(p: Params, s: PacketState, calls: seq<Call>)
    requires ValidParams(p) && Inv(p, s)
    ensures var t := Run(p, s, calls).state;
      t.nextPts + t.sampleCount == s.nextPts + s.sampleCount + p.frameSize * SampleCalls(calls)
    decreases |calls|
  {
    if calls != [] {
      var r := Step(p, s, calls[0].input, calls[0].bufSize);
      StepKeepsInv(p, s, calls[0].input, calls[0].bufSize);
      StepCountsSamples(p, s, calls[0].input, calls[0].bufSize);
      RunCountsSamples(p, r.state, calls[1..]);
      MulSucc(p.frameSize, SampleCalls(calls[1..]));
    }
  }

  /** A packet completed from a state satisfying the invariant holds at least one frame's samples. */
  lemma EmittingStepAdvances(p: Params, s: PacketState, input: Input, bufSize: int)
    requires ValidParams(p) && Inv(p, s)
    requires Step(p, s, input, bufSize).outcome.Emits()
    ensures Step(p, s, input, bufSize).outcome.pts == s.nextPts - p.delay
    ensures Step(p, s, input, bufSize).state.nextPts >= s.nextPts + p.frameSize
  {
  }

  /**
   * The timestamps of completed packets strictly increase, none is below
   * the starting timestamp, and all lie below where the run leaves next_pts.
   */
  lemma {:induction false} RunTimestampsIncrease(p: Params, s: PacketState, calls: seq<Call>)
    requires ValidParams(p) && Inv(p, s)
    ensures var t := Run(p, s, calls);
      && StrictlyIncreasing(EmittedPts(t.outcomes))
      && forall k :: 0 <= k < |EmittedPts(t.outcomes)| ==>
           s.nextPts - p.delay <= EmittedPts(t.outcomes)[k] < t.state.nextPts - p.delay
    decreases |calls|
  {
    if calls != [] {
      var r := Step(p, s, calls[0].input, calls[0].bufSize);
      var rest := Run(p, r.state, calls[1..]);
      var outs := Run(p, s, calls).outcomes;
      assert outs == [r.outcome] + rest.outcomes;
      assert outs[1..] == rest.outcomes;
      StepKeepsInv(p, s, calls[0].input, calls[0].bufSize);
      RunTimestampsIncrease(p, r.state, calls[1..]);
      RunKeepsInv(p, r.state, calls[1..]);
      if r.outcome.Emits() {
        EmittingStepAdvances(p, s, calls[0].input, calls[0].bufSize);
      }
    }
  }

  /** The bits of a run's frames, in order. */
  function RunFrameBits(p: Params, calls: seq<Call>): (bits: seq<bool>)
    requires forall k :: 0 <= k < |calls| ==> calls[k].input.Samples?
  {
    if calls == [] then []
    else FrameBits(p, calls[0].input.stereoBits, calls[0].input.monoBits) + RunFrameBits(p, calls[1..])
  }

  /**
   * Calls with samples that do not fill the packet return no packet; they
   * only add their frames, samples and bits.
   */
  lemma {:induction false} FillingRun(p: Params, s: PacketState, calls: seq<Call>)
    requires ValidParams(p) && Inv(p, s)
    requires forall k :: 0 <= k < |calls| ==> calls[k].input.Samples?
    requires s.frameCount + |calls| < p.framesPerPacket
    ensures var t := Run(p, s, calls);
      && (forall k :: 0 <= k < |calls| ==> t.outcomes[k] == NoPacket)
      && t.state == PacketState(s.frameCount + |calls|, s.sampleCount + |calls| * p.frameSize,
                                s.nextPts, s.bits + RunFrameBits(p, calls))
    decreases |calls|
  {
    if calls == [] {
      assert s.bits + [] == s.bits;
    } else {
      var c := calls[0].input;
      var r := Step(p, s, c, calls[0].bufSize);
      SamplesStep(p, s, c.stereoBits, c.monoBits, calls[0].bufSize);
      StepKeepsInv(p, s, c, calls[0].bufSize);
      FillingRun(p, r.state, calls[1..]);
      assert (|calls| - 1) * p.frameSize + p.frameSize == |calls| * p.frameSize;
      assert r.state.bits + RunFrameBits(p, calls[1..]) == s.bits + RunFrameBits(p, calls);
    }
  }

  /**
   * Starting from an empty packet, frames_per_packet calls with samples
   * return no packet until the last one, which completes a packet whose
   * payload is the bits already in the writer followed by those frames' bits.
   */
  lemma {:induction false} PacketEveryNFrames(p: Params, s: PacketState, calls: seq<Call>)
    requires ValidParams(p) && Inv(p, s) && s.frameCount == 0
    requires |calls| == p.framesPerPacket
    requires forall k :: 0 <= k < |calls| ==> calls[k].input.Samples?
    ensures var t := Run(p, s, calls);
      && (forall k :: 0 <= k < |calls| - 1 ==> t.outcomes[k] == NoPacket)
      && t.outcomes[|calls| - 1].Emits()
      && t.outcomes[|calls| - 1].pts == s.nextPts - p.delay
      && (t.outcomes[|calls| - 1].Written? ==>
            t.outcomes[|calls| - 1].payload == s.bits + RunFrameBits(p, calls))
      && t.state.frameCount == 0
  {
    var n := |calls|;
    var head := calls[..n - 1];
    var last := calls[n - 1];
    assert calls == head + [last];
    FillingRun(p, s, head);
    var th := Run(p, s, head);
    LastCall(p, th.state, last);
    var r := Step(p, th.state, last.input, last.bufSize);
    RunSnoc(p, s, head, last);
    var t := Run(p, s, calls);
    assert t.outcomes == th.outcomes + [r.outcome];
    forall k | 0 <= k < n - 1
      ensures t.outcomes[k] == NoPacket
    {
      assert t.outcomes[k] == th.outcomes[k];
    }
    assert t.outcomes[n - 1] == r.outcome;
    assert th.state.bits == s.bits + RunFrameBits(p, head);
    RunFrameBitsSnoc(p, head, last);
  }

  /** Running one more call after a run. */
  lemma RunSnoc(p: Params, s: PacketState, a: seq<Call>, c: Call)
    ensures var ta := Run(p, s, a); var r := Step(p, ta.state, c.input, c.bufSize);
      Run(p, s, a + [c]) == Trace(r.state, ta.outcomes + [r.outcome])
  {
    RunSplit(p, s, a, [c]);
    assert [c][1..] == [];
  }

  lemma RunFrameBitsSnoc(p: Params, a: seq<Call>, c: Call)
    requires forall k :: 0 <= k < |a| ==> a[k].input.Samples?
    requires c.input.Samples?
    ensures RunFrameBits(p, a + [c]) == RunFrameBits(p, a) + FrameBits(p, c.input.stereoBits, c.input.monoBits)
  {
    RunFrameBitsAppend(p, a, [c]);
    assert RunFrameBits(p, [c]) == FrameBits(p, c.input.stereoBits, c.input.monoBits) + RunFrameBits(p, []);
  }

  lemma LastCall(p: Params, s: PacketState, last: Call)
    requires ValidParams(p) && Inv(p, s) && s.frameCount == p.framesPerPacket - 1
    requires last.input.Samples?
    ensures var r := Step(p, s, last.input, last.bufSize);
      && r.outcome.Emits() && r.outcome.pts == s.nextPts - p.delay && r.state.frameCount == 0
      && (r.outcome.Written? ==>
            r.outcome.payload == s.bits + FrameBits(p, last.input.stereoBits, last.input.monoBits))
  {
  }

  /** Running two sequences of calls one after the other is running their concatenation. */
  lemma {:induction false} RunSplit(p: Params, s: PacketState, a: seq<Call>, b: seq<Call>)
    ensures var ta := Run(p, s, a); var tb := Run(p, ta.state, b);
      Run(p, s, a + b) == Trace(tb.state, ta.outcomes + tb.outcomes)
    decreases |a|
  {
    if a == [] {
      assert a + b == b;
    } else {
      assert (a + b)[1..] == a[1..] + b;
      RunSplit(p, Step(p, s, a[0].input, a[0].bufSize).state, a[1..], b);
    }
  }

  lemma {:induction false} RunFrameBitsAppend(p: Params, a: seq<Call>, b: seq<Call>)
    requires forall k :: 0 <= k < |a| ==> a[k].input.Samples?
    requires forall k :: 0 <= k < |b| ==> b[k].input.Samples?
    ensures RunFrameBits(p, a + b) == RunFrameBits(p, a) + RunFrameBits(p, b)
    decreases |a|
  {
    if a == [] {
      assert a + b == b;
    } else {
      assert (a + b)[1..] == a[1..] + b;
      RunFrameBitsAppend(p, a[1..], b);
    }
  }
}
