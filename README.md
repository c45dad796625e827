# libspeex encoder adapter — a Dafny model

This project models the libspeex encoder adapter of libavcodec
(`libavcodec/libspeexenc.c`). The adapter is the glue between the codec
framework and the external Speex library. It does two things of its own:

* **encode_init** checks the configuration and translates it for libspeex.
  It accepts only mono or stereo, and maps the sample rate to a Speex mode
  (8000 gives narrowband, 16000 wideband, 32000 ultra-wideband). It then
  picks exactly one rate-control mode in this order: VBR, ABR, CBR by
  bitrate, CBR by quality. It clamps the VBR quality and the complexity into
  [0, 10]. Finally it reports back to the caller the complexity, the frame
  size and the lookahead, and, outside VBR, the negotiated bitrate (plus
  800 bps for stereo).
* **encode_frame** packs frames into packets. Each call with samples appends
  one frame's bits and counts one frame. End of stream pads the last packet
  with 5-bit terminator codes (value 15). When a packet is full, the call
  stamps it with `next_pts - delay`, advances `next_pts`, resets the
  counters, and then either writes and clears the bits or fails because the
  output buffer is too small.

Modules:

* `Wrappers` (`wrappers.dfy`): Option and Result.
* `SpeexBits` (`speex_bits.dfy`): the bit writer as a sequence of bits, the
  most-significant-bit-first packing of the terminator code, and the byte
  count of a bit sequence.
* `SpeexInit` (`speex_init.dfy`): encode_init as a pure function from the
  configuration and the values libspeex reports back (`LibraryReport`) to an
  error or to `Settings`. `Settings` holds the Speex header, the rate-control
  mode as a tagged union, the sequence of control requests pushed to
  libspeex, and the values reported to the caller.
* `SpeexPacketizer` (`speex_packetizer.dfy`): encode_frame as a pure step
  function on the packet state (frame count, sample count, next timestamp,
  bits), runs of calls, and the lemmas about them.
* `SpeexEncoder` (`speex_encoder.dfy`): the adapter context as a class whose
  `EncodeFrame` method updates the counters, timestamp and bit writer in
  place, with the terminator loop. Each call is proved to perform exactly
  one `Step` and to keep the between-calls invariant.

## Model

| member | source | states |
|---|---|---|
| SpeexInit.EncodeInit | libavcodec/libspeexenc.c:120-229 | Exactly these configurations fail, checked in this order: invalid channels or an unsupported sample rate give EINVAL; then a refused encoder gives -1; then a failed allocation gives ENOMEM. On success the header records the rate, the channels, the mode of that rate, the VBR flag and frames_per_packet, the session runs the rate-control mode SelectRateControl chooses, and the caller gets back libspeex's frame size, complexity and lookahead |
| SpeexInit.ChannelsCheckedFirst | libavcodec/libspeexenc.c:128-133 | A channel count outside {1, 2} yields EINVAL whatever libspeex would have reported, so no encoder is consulted |
| SpeexInit.ModeForSampleRate | libavcodec/libspeexenc.c:135-144 | A mode exists exactly for 8000, 16000 and 32000 Hz, and that mode's own sample rate is the requested one |
| SpeexInit.SampleRateSelectsMode | libavcodec/libspeexenc.c:136-144 | With valid channels, initialisation succeeds exactly for the three rates; 8000 selects narrowband, 16000 wideband and 32000 ultra-wideband |
| SpeexInit.ClampReal | libavcodec/libspeexenc.c:159-160 | The clamped VBR quality lies in the bounds, equals the input when the input is inside them, and is the nearest point of the range to the input |
| SpeexInit.ClampInt | libavcodec/libspeexenc.c:191 | The clamped complexity lies in the bounds, equals the input when the input is inside them, and is the nearest point of the range to the input |
| SpeexInit.SelectRateControl | libavcodec/libspeexenc.c:154-183 | Rate-control precedence, each case as an if-and-only-if: the QSCALE flag gives VBR with quality in [0, 10]; otherwise a positive bit rate gives ABR when abr is set and CBR by bitrate when it is not; otherwise CBR by cbr_quality. In VBR the quality is the caller's when it lies in [0, 10], 0 when below and 10 when above (the clamp); the other modes carry the caller's bitrate or quality |
| SpeexInit.RateControlRequests | libavcodec/libspeexenc.c:155-183 | The SET requests sent for a rate-control mode, read back as a rate-control mode, give that mode again |
| SpeexInit.ComplexityRequests | libavcodec/libspeexenc.c:189-193 | At most one request is produced, and one exactly when the compression level is above the default; it is a complexity request whose value is the level when the level is at most 10 and 10 when it is above |
| SpeexInit.ControlsRealizeRateControl | libavcodec/libspeexenc.c:154-195 | The control requests a successful initialisation sends put libspeex into exactly the selected rate-control mode: the rate requests among them are the requests of that one mode and no other |
| SpeexInit.InitReportedBitRate | libavcodec/libspeexenc.c:162-187 | Outside VBR, the reported bit rate is the negotiated bitrate plus 800 for stereo and plus 0 for mono, and the header carries the negotiated bitrate. VBR leaves the caller's bit rate and the header bitrate untouched |
| SpeexInit.InitComplexity | libavcodec/libspeexenc.c:189-195 | A complexity request is sent exactly when compression_level > -1, and never more than one; it lies in [0, 10], equals the level when the level is already in range and is 10 when the level is above 10. The reported compression level is always the value libspeex reads back |
| SpeexInit.RequestsIndependentOfReadback | libavcodec/libspeexenc.c:146-202 | The requests sent to libspeex, the rate-control mode and the Speex mode depend on the configuration alone, not on the values libspeex reports back |
| SpeexInit.DefaultConfig | libavcodec/libspeexenc.c:289-307 | The three private-option defaults (abr 0, cbr_quality 8, frames_per_packet 1) lie in their declared ranges; the codec defaults bit rate 0 and compression level 3 (:304-305) are carried as values only, since they have no declared range |
| SpeexInit.DefaultsGiveCbrQuality | libavcodec/libspeexenc.c:155-195 | With only channels and sample rate set, the session runs CBR at quality 8 and sends exactly the quality-8 request and a complexity-3 request |
| SpeexBits.UnpackPack | libavcodec/libspeexenc.c:250 | Packing a value into a bit width it fits and reading the bits back gives the value |
| SpeexBits.PackUnpack | libavcodec/libspeexenc.c:250 | Reading a bit sequence as a number and packing it back at its own width gives the same bits |
| SpeexBits.TerminatorIsPacked | libavcodec/libspeexenc.c:250 | The terminator code appended is the value 15 packed into 5 bits, and it reads back as 15 |
| SpeexBits.TerminatorsAt | libavcodec/libspeexenc.c:248-252 | After k terminator codes have been appended, every 5-bit slot i < k holds the terminator code |
| SpeexBits.TerminatorsAdd | libavcodec/libspeexenc.c:249-252 | Appending terminator codes a few at a time gives the same bits as appending them all at once |
| SpeexBits.NBytes | libavcodec/libspeexenc.c:262 | The byte count of a bit sequence is the fewest whole bytes that hold all its bits |
| SpeexPacketizer.AddFrame | libavcodec/libspeexenc.c:237-243 | A frame adds one to the frame count and frame_size to the sample count, keeps next_pts, and appends to the bits without touching those already there; the number of bits added is the mono bits' plus, with two channels only, the stereo bits' |
| SpeexPacketizer.AddFrameAppends | libavcodec/libspeexenc.c:237-243 | The bits after those already in the writer are exactly the stereo bits followed by the mono bits with two channels, and the mono bits alone otherwise |
| SpeexPacketizer.PadToPacket | libavcodec/libspeexenc.c:248-252 | Padding brings the frame count up to frames_per_packet, leaves the sample count and next_pts unchanged, and appends 5 bits per missing frame after the existing bits |
| SpeexPacketizer.Flush | libavcodec/libspeexenc.c:256-270 | A packet is completed exactly when the frame count equals frames_per_packet; otherwise the state is unchanged. A completed packet is stamped next_pts - delay, both counters are zeroed and next_pts grows by the pending samples. It is written exactly when the buffer exceeds the byte count: the payload is the bits and the writer is emptied. Otherwise the bits are kept |
| SpeexPacketizer.Step | libavcodec/libspeexenc.c:231-272 | One encode_frame call. End of stream with nothing pending changes nothing. A frame completes a packet exactly when it is the packet's last. End of stream with frames pending always completes one. A completed packet is stamped next_pts - delay with both counters reset. Without a packet, next_pts does not move |
| SpeexPacketizer.StepKeepsInv | libavcodec/libspeexenc.c:237-271 | Each call keeps 0 <= pkt_frame_count < frames_per_packet and pkt_sample_count == pkt_frame_count * frame_size, and never moves next_pts backwards |
| SpeexPacketizer.RunKeepsInv | libavcodec/libspeexenc.c:237-271 | The same invariant and the monotone next_pts hold after any sequence of calls |
| SpeexPacketizer.SamplesStep | libavcodec/libspeexenc.c:237-256 | A call with samples completes a packet exactly when it brings the frame count to frames_per_packet. Otherwise it adds exactly one frame, frame_size samples and the frame's bits (stereo side information first when there are two channels) |
| SpeexPacketizer.OneFramePerPacket | libavcodec/libspeexenc.c:237-256 | With frames_per_packet = 1, every call with samples completes a packet |
| SpeexPacketizer.EndOfStreamIdle | libavcodec/libspeexenc.c:244-247 | End of stream with no pending frame returns no packet and changes no state |
| SpeexPacketizer.EndOfStreamPads | libavcodec/libspeexenc.c:244-256 | End of stream with pending frames appends exactly frames_per_packet - pkt_frame_count terminator codes (5 bits each) and leaves pkt_sample_count unchanged. The count ends at frames_per_packet and a packet is completed |
| SpeexPacketizer.FlushFullPacket | libavcodec/libspeexenc.c:256-269 | A full packet is stamped next_pts - delay, next_pts grows by the packet's samples, and both counters become 0. When the buffer is larger than the byte count, the bits are written and cleared; otherwise the call fails with the bits retained |
| SpeexPacketizer.TooSmallThenEndOfStream | libavcodec/libspeexenc.c:244-268 | After a too-small buffer, nothing is pending but the packet's bits are still in the bit writer, so a following end-of-stream call returns no packet and leaves them unwritten |
| SpeexPacketizer.StepCountsSamples | libavcodec/libspeexenc.c:242-261 | One call moves samples between the pending count and next_pts without losing or adding any, beyond the frame_size samples a frame brings |
| SpeexPacketizer.RunCountsSamples | libavcodec/libspeexenc.c:242-261 | Over any sequence of calls, next_pts plus the pending samples grows by frame_size for every call that carries samples |
| SpeexPacketizer.EmittingStepAdvances | libavcodec/libspeexenc.c:256-261 | A completed packet is stamped next_pts - delay, and next_pts then moves on by at least one frame |
| SpeexPacketizer.RunTimestampsIncrease | libavcodec/libspeexenc.c:256-261 | Over any sequence of calls, the timestamps of completed packets strictly increase. None is below the starting next_pts - delay, and all lie below the final next_pts - delay |
| SpeexPacketizer.FillingRun | libavcodec/libspeexenc.c:237-271 | Calls with samples that do not fill the packet return no packet. They only add their frames, frame_size samples each, and their bits in order |
| SpeexPacketizer.PacketEveryNFrames | libavcodec/libspeexenc.c:237-270 | From an empty packet, frames_per_packet calls with samples return no packet until the last one. The last call completes a packet stamped with the starting next_pts - delay; its written payload is the bits still in the writer followed by those frames' bits |
| SpeexEncoder.InitGivesValidParams | libavcodec/libspeexenc.c:197-202 | A successful initialisation with in-range options gives encode_frame the caller's channels and frames_per_packet (1 to 8) and libspeex's frame size and lookahead, given a positive frame size from libspeex |
| SpeexEncoder.LibSpeexEncoder.constructor | libavcodec/libspeexenc.c:224-225 | After initialisation the bit writer is empty, the counters and next_pts are 0, and the between-calls invariant holds |
| SpeexEncoder.LibSpeexEncoder.AddTerminators | libavcodec/libspeexenc.c:249-252 | The terminator loop, updating the count and the bit writer in place, leaves exactly the padded state PadToPacket describes, and leaves the coded frame's timestamp alone |
| SpeexEncoder.LibSpeexEncoder.CompletePacket | libavcodec/libspeexenc.c:256-270 | The in-place reset of the counters, the advance of next_pts and the write-or-fail on the bit writer leave exactly the state and outcome Flush describes; the coded frame's timestamp is set whenever a packet is completed |
| SpeexEncoder.LibSpeexEncoder.EncodeFrame | libavcodec/libspeexenc.c:231-272 | The in-place update of the counters, next_pts and bit writer, terminator loop included, performs exactly one Step of the packetizer and keeps the between-calls invariant. The coded frame's timestamp is the time-base conversion of the packet's timestamp whenever a packet is completed |

Three behaviours of the source are easy to miss. The model follows the
source in each:

* When the output buffer is too small, the frame and sample counts have
  already been reset and `next_pts` has already been advanced; only the bits
  are kept (libavcodec/libspeexenc.c:257-268). An end-of-stream call that
  follows therefore returns 0 and never writes them
  (`TooSmallThenEndOfStream`). A call with samples that follows appends its
  frame to the old bits.
* When allocation fails, encode_init has already written bit_rate (outside VBR),
  compression_level, frame_size and delay into the codec context before it
  returns ENOMEM (libavcodec/libspeexenc.c:186-217).
* The output buffer must be strictly larger than the byte count of the bits
  (`buf_size > speex_bits_nbytes`, libavcodec/libspeexenc.c:262). A buffer
  of exactly that size is refused.

## Left out

- libspeex itself: `speex_encoder_init`, `speex_encode_int` and
  `speex_encode_stereo_int` are not modelled. Whether the encoder was
  created is a `LibraryReport` field. The bits the two encode calls append
  for a frame are given with the call as `Samples(stereoBits, monoBits)`.
  The samples themselves are not modelled.
- The values `speex_encoder_ctl` reads back are taken as parameters, without
  their dependence on the mode or on the requests sent: the negotiated
  bitrate, the complexity and the lookahead. The frame size, which
  `speex_init_header` records in the header, is a parameter too.
- `speex_init_header`, `speex_header_to_packet` and the extradata copy: the
  header is a record. Its serialised bytes and `extradata_size` are not
  modelled.
- `speex_bits_write`: the byte content of a written packet is not modelled.
  This includes how libspeex fills the last partial byte. A written packet
  carries its bit sequence and its byte count.
- Memory allocation and release (`av_malloc`, `avcodec_alloc_frame`,
  `speex_header_free`, `speex_encoder_destroy`) and `encode_close` are
  resource plumbing; only the allocation outcome is a `LibraryReport` field.
- SpeexInit.EncodeInit: on the allocation failure path it returns only the
  error, not the codec-context fields the source has already written by then.
- `print_enc_params` and the `av_log` calls are diagnostics only.
- `global_quality / (float)FF_QP2LAMBDA` is taken as an exact real
  (`Config.vbrQuality`), and `av_clipf` is clamping over reals rather than
  IEEE floats.
- `ff_samples_to_time_base` is an opaque function (`toTimeBase`) applied to
  `next_pts - delay`. Packet timestamps in the packetizer are in samples.
- Integer widths: `bit_rate + 800`, the 64-bit `next_pts` and the 32-bit
  counters are unbounded integers. The model does not capture overflow,
  which needs about 2^63 samples or a bitrate near 2^31.
- The AVOption, AVClass and AVCodec tables are not modelled. What remains of
  them is the option ranges (`OptionsInRange`) and the defaults
  (`DefaultConfig`). `FF_COMPRESSION_DEFAULT` (-1) comes from `avcodec.h`,
  which is not part of this model.
