/** What the two sample suppliers share: raw bytes, complex samples, the
    squared magnitude of a bin, and the per-bin accumulator that one
    `get_block` call fills over `averaging` frames and then scales. f32
    arithmetic is modelled over the reals. */
module Spectrum {

  /** An unsigned byte as the device delivers it. */
  type byte = x: int | 0 <= x < 256

  datatype Complex = Complex(re: real, im: real)

  /** `re * re + im * im` (`norm_sqr`): the power in one bin, never negative. */
  function MagSq(c: Complex): (r: real)
    ensures r >= 0.0
  {
    c.re * c.re + c.im * c.im
  }

  /** Consecutive reals taken pairwise as (re, im): the layout of an
      interleaved I/Q stream, and of `[Complex<f32>; N]` over `[f32; 2N]`. */
  function Interleaved(xs: seq<real>): (cs: seq<Complex>)
    requires |xs| % 2 == 0
    ensures |cs| == |xs| / 2
  {
    seq(|xs| / 2, i requires 0 <= i < |xs| / 2 => Complex(xs[2 * i], xs[2 * i + 1]))
  }

  /** The interleaved stream of a sequence of complex samples. */
  function Flattened(cs: seq<Complex>): (xs: seq<real>)
    ensures |xs| == 2 * |cs|
  {
    if cs == [] then [] else [cs[0].re, cs[0].im] + Flattened(cs[1..])
  }

  lemma {:induction false} FlattenedAt(cs: seq<Complex>, i: nat)
    requires i < |cs|
    ensures Flattened(cs)[2 * i] == cs[i].re && Flattened(cs)[2 * i + 1] == cs[i].im
  {
    if i > 0 {
      FlattenedAt(cs[1..], i - 1);
    }
  }

  /** Pairing a flattened stream gives the samples back. */
  lemma InterleavedFlattened(cs: seq<Complex>)
    ensures Interleaved(Flattened(cs)) == cs
  {
    forall i | 0 <= i < |cs| ensures Interleaved(Flattened(cs))[i] == cs[i] {
      FlattenedAt(cs, i);
    }
  }

  /** Flattening the pairs gives the stream back: pairing loses nothing. */
  lemma FlattenedInterleaved(xs: seq<real>)
    requires |xs| % 2 == 0
    ensures Flattened(Interleaved(xs)) == xs
  {
    var cs := Interleaved(xs);
    forall k | 0 <= k < |xs| ensures Flattened(cs)[k] == xs[k] {
      FlattenedAt(cs, k / 2);
    }
  }

  /** The squared magnitudes of one frame, bin by bin. */
  function Powers(frame: seq<Complex>): (p: seq<real>)
    ensures |p| == |frame|
  {
    seq(|frame|, i requires 0 <= i < |frame| => MagSq(frame[i]))
  }

  /** All frames have a bin i. */
  predicate HasBin(frames: seq<seq<Complex>>, i: nat) {
    forall k :: 0 <= k < |frames| ==> i < |frames[k]|
  }

  /** What accumulator bin i holds after `frames`, before scaling: the sum
      over the frames of their bin i alone (bins are never mixed). */
  function BinSum(frames: seq<seq<Complex>>, i: nat): (r: real)
    requires HasBin(frames, i)
    ensures r >= 0.0
  {
    if frames == [] then 0.0
    else BinSum(frames[..|frames| - 1], i) + MagSq(frames[|frames| - 1][i])
  }

  /** Every frame has exactly n bins. */
  predicate Uniform(frames: seq<seq<Complex>>, n: nat) {
    forall k :: 0 <= k < |frames| ==> |frames[k]| == n
  }

  /** A sum scaled by the precomputed factor `1/averaging`. */
  function Mean(sum: real, averaging: nat): (m: real)
    requires averaging >= 1
    ensures sum >= 0.0 ==> 0.0 <= m <= sum
  {
    sum * (1.0 / averaging as real)
  }

  /** The block `get_block` returns: the accumulated sum of every bin times
      `1/averaging`. */
  function MeanPower(frames: seq<seq<Complex>>, n: nat, averaging: nat): (p: seq<real>)
    requires averaging >= 1 && Uniform(frames, n)
    ensures |p| == n
    ensures forall i :: 0 <= i < n ==> p[i] >= 0.0
  {
    seq(n, i requires 0 <= i < n => Mean(BinSum(frames, i), averaging))
  }

  /** Adding one more frame adds its squared magnitude to each bin. */
  lemma BinSumSnoc(frames: seq<seq<Complex>>, frame: seq<Complex>, i: nat)
    requires HasBin(frames, i) && i < |frame|
    ensures HasBin(frames + [frame], i)
    ensures BinSum(frames + [frame], i) == BinSum(frames, i) + MagSq(frame[i])
  {
    assert (frames + [frame])[..|frames|] == frames;
  }

  /** Bin i of the sum depends on bin i of the frames and on nothing else. */
  lemma {:induction false} BinSumLocal(a: seq<seq<Complex>>, b: seq<seq<Complex>>, i: nat)
    requires HasBin(a, i) && HasBin(b, i) && |a| == |b|
    requires forall k :: 0 <= k < |a| ==> a[k][i] == b[k][i]
    ensures BinSum(a, i) == BinSum(b, i)
  {
    if a != [] {
      BinSumLocal(a[..|a| - 1], b[..|b| - 1], i);
    }
  }

  /** Summing two runs of frames one after the other is summing each. */
  lemma {:induction false} BinSumConcat(a: seq<seq<Complex>>, b: seq<seq<Complex>>, i: nat)
    requires HasBin(a, i) && HasBin(b, i)
    ensures HasBin(a + b, i)
    ensures BinSum(a + b, i) == BinSum(a, i) + BinSum(b, i)
  {
    if b != [] {
      var b' := b[..|b| - 1];
      assert (a + b)[..|a + b| - 1] == a + b';
      assert (a + b)[|a + b| - 1] == b[|b| - 1];
      BinSumConcat(a, b', i);
      assert HasBin(a + b', i);
      assert BinSum(a + b, i) == BinSum(a + b', i) + MagSq(b[|b| - 1][i]);
      assert BinSum(b, i) == BinSum(b', i) + MagSq(b[|b| - 1][i]);
    } else {
      assert a + b == a;
    }
  }

  /** k copies of one frame sum to k times its squared magnitude. */
  lemma {:induction false} BinSumRepeated(frames: seq<seq<Complex>>, frame: seq<Complex>, i: nat)
    requires i < |frame|
    requires forall k :: 0 <= k < |frames| ==> frames[k] == frame
    ensures HasBin(frames, i)
    ensures BinSum(frames, i) == |frames| as real * MagSq(frame[i])
  {
    if frames != [] {
      BinSumRepeated(frames[..|frames| - 1], frame, i);
    }
  }

  /** With `averaging == 1` the block is the one frame's squared magnitudes. */
  lemma SingleFrame(frame: seq<Complex>)
    ensures MeanPower([frame], |frame|, 1) == Powers(frame)
  {
    forall i | 0 <= i < |frame| ensures MeanPower([frame], |frame|, 1)[i] == Powers(frame)[i] {
      assert [frame][..0] == [];
      assert BinSum([frame], i) == MagSq(frame[i]);
    }
  }

  /** Averaging N identical frames returns that frame's squared magnitudes:
      the block is the arithmetic mean, not the sum. */
  lemma MeanOfIdentical(frames: seq<seq<Complex>>, frame: seq<Complex>)
    requires |frames| >= 1
    requires forall k :: 0 <= k < |frames| ==> frames[k] == frame
    ensures Uniform(frames, |frame|)
    ensures MeanPower(frames, |frame|, |frames|) == Powers(frame)
  {
    var n := |frames| as real;
    forall i | 0 <= i < |frame|
      ensures MeanPower(frames, |frame|, |frames|)[i] == Powers(frame)[i]
    {
      BinSumRepeated(frames, frame, i);
      assert Mean(BinSum(frames, i), |frames|) == MagSq(frame[i]);
    }
  }

  /** The outcome of one read of the device. */
  datatype Transfer = Received(data: seq<byte>) | Failed

  /** All of `transfers` succeeded. */
  predicate AllReceived(transfers: seq<Transfer>) {
    forall k :: 0 <= k < |transfers| ==> transfers[k].Received?
  }

  /** The bytes of each read, in order. */
  function Payloads(transfers: seq<Transfer>): (frames: seq<seq<byte>>)
    requires AllReceived(transfers)
    ensures |frames| == |transfers|
    ensures forall k :: 0 <= k < |transfers| ==> frames[k] == transfers[k].data
  {
    seq(|transfers|, k requires 0 <= k < |transfers| => transfers[k].data)
  }

  /** One more successful read extends the payloads of the reads so far. */
  lemma PayloadsSnoc(transfers: seq<Transfer>, k: nat)
    requires k < |transfers| && AllReceived(transfers[..k]) && transfers[k].Received?
    ensures AllReceived(transfers[..k + 1])
    ensures Payloads(transfers[..k + 1]) == Payloads(transfers[..k]) + [transfers[k].data]
  {
    assert transfers[..k + 1] == transfers[..k] + [transfers[k]];
  }

  /** How a `get_block` call ends: with the block in the accumulator, or in a
      panic at read number `atRead` (counting from 1), the first that failed. */
  datatype Fetch = Delivered | Panicked(atRead: nat)

  /** `f` is what a call that attempts `transfers` in order, with no retry,
      reports: delivery when every read succeeds, otherwise a panic at the
      first failed read. */
  predicate StopsAtFirstFailure(f: Fetch, transfers: seq<Transfer>) {
    && (f.Delivered? <==> AllReceived(transfers))
    && (f.Panicked? ==>
          && 1 <= f.atRead <= |transfers|
          && transfers[f.atRead - 1].Failed?
          && AllReceived(transfers[..f.atRead - 1]))
  }
}
