/**
 * The libspeex bit writer as the encoder adapter sees it: a growing sequence
 * of bits, the fixed-width packing used for the end-of-stream terminator
 * code, and the byte count that decides whether a packet fits the caller's
 * output buffer.
 */
module SpeexBits {

  /** 2 to the power `n`. */
  function Pow2(n: nat): (r: nat)
    ensures r >= 1
  {
    if n == 0 then 1 else 2 * Pow2(n - 1)
  }

  /**
   * The `width` low bits of `value`, most significant bit first: what
   * speex_bits_pack appends to the bit writer.
   */
  function Pack(value: nat, width: nat): (r: seq<bool>)
    ensures |r| == width
  {
    if width == 0 then [] else Pack(value / 2, width - 1) + [value % 2 == 1]
  }

  /** The number a bit sequence denotes, most significant bit first. */
  function Unpack(bits: seq<bool>): (v: nat)
    ensures v < Pow2(|bits|)
  {
    if bits == [] then 0
    else 2 * Unpack(bits[..|bits| - 1]) + (if bits[|bits| - 1] then 1 else 0)
  }

  /** Packing a value that fits in `width` bits and reading it back gives the value. */
  lemma {:induction false} UnpackPack(value: nat, width: nat)
    requires value < Pow2(width)
    ensures Unpack(Pack(value, width)) == value
  {
    if width > 0 {
      var r := Pack(value, width);
      assert r[..width - 1] == Pack(value / 2, width - 1);
      UnpackPack(value / 2, width - 1);
    }
  }

  /** Reading a bit sequence and packing it back at its own width gives the sequence. */
  lemma {:induction false} PackUnpack(bits: seq<bool>)
    ensures Pack(Unpack(bits), |bits|) == bits
  {
    if bits != [] {
      var init := bits[..|bits| - 1];
      var v := Unpack(bits);
      assert v / 2 == Unpack(init);
      PackUnpack(init);
      assert bits == init + [bits[|bits| - 1]];
    }
  }

  /**
   * Width of the end-of-stream terminator code. Contracts that multiply by
   * it write the literal 5, which the solver treats as linear arithmetic.
   */
  const TerminatorWidth: nat := 5

  /** Value of the end-of-stream terminator code. */
  const TerminatorValue: nat := 15

  /** The terminator code appended for every unused frame slot of the last packet. */
  function TerminatorCode(): (r: seq<bool>)
    ensures |r| == TerminatorWidth
  {
    [false, true, true, true, true]
  }

  /** The terminator code is 15 packed into 5 bits, and reads back as 15. */
  lemma TerminatorIsPacked()
    ensures TerminatorCode() == Pack(TerminatorValue, TerminatorWidth)
    ensures Unpack(TerminatorCode()) == TerminatorValue
  {
    UnpackPack(TerminatorValue, TerminatorWidth);
  }

  /** `k` terminator codes in a row. */
  function Terminators(k: nat): (r: seq<bool>)
    ensures |r| == 5 * k
  {
    if k == 0 then [] else Terminators(k - 1) + TerminatorCode()
  }

  /** The `i`-th five-bit slot of `Terminators(k)` holds the terminator code. */
  lemma {:induction false} TerminatorsAt(k: nat, i: nat)
    requires i < k
    ensures Terminators(k)[5 * i .. 5 * i + 5] == TerminatorCode()
  {
    if i < k - 1 {
      TerminatorsAt(k - 1, i);
      assert Terminators(k) == Terminators(k - 1) + TerminatorCode();
      assert Terminators(k)[..5 * (k - 1)] == Terminators(k - 1);
    }
  }

  /** Padding in two steps appends the same codes as padding in one. */
  lemma {:induction false} TerminatorsAdd(j: nat, k: nat)
    ensures Terminators(j + k) == Terminators(j) + Terminators(k)
  {
    if k > 0 {
      TerminatorsAdd(j, k - 1);
    }
  }

  /**
   * The number of whole bytes the bit writer needs for `bits`
   * (speex_bits_nbytes): the fewest bytes that hold every bit.
   */
  function NBytes(bits: seq<bool>): (n: nat)
    ensures 8 * n >= |bits|
    ensures n == 0 || 8 * (n - 1) < |bits|
  {
    (|bits| + 7) / 8
  }
}
