/** The stdin sample supplier (`DataSupplier`): each `get_block` call reads
    `averaging` frames of interleaved signed 8-bit I/Q samples, transforms
    each with a forward FFT of NUM_SAMPLES points, accumulates the squared
    magnitude of every bin and scales the sums by `1/averaging`.
    Reading stdin is modelled by the sequence of read outcomes the call
    sees; the FFT is a function the model does not interpret. */
module Source {
  import opened Machine
  import opened Spectrum

  const NUM_SAMPLES: nat := 2048
  /** Bytes per read: one byte of re and one of im per sample. */
  const FRAME_BYTES: nat := 2 * NUM_SAMPLES

  /** `b as i8`: the byte read as two's complement. */
  function AsI8(b: byte): (v: int)
    ensures -128 <= v < 128
    ensures (v - b) % 256 == 0
  {
    if b < 128 then b else b - 256
  }

  /** `v as u8`: the byte whose two's-complement reading is v. */
  function I8Byte(v: int): (b: byte)
    requires -128 <= v < 128
    ensures AsI8(b) == v
  {
    v % 256
  }

  /** Reading a byte as i8 and writing it back gives the byte. */
  lemma I8RoundTrip(b: byte)
    ensures I8Byte(AsI8(b)) == b
  {
  }

  /** `(b as i8) as f32 / 128.0`. */
  function Normalize8(b: byte): (x: real)
    ensures -1.0 <= x <= 127.0 / 128.0
    ensures x * 128.0 == AsI8(b) as real
  {
    AsI8(b) as real / 128.0
  }

  /** The complex samples of one frame: sample i takes re from byte 2i and
      im from byte 2i + 1, both in [-1, 127/128]. */
  function Samples8(frame: seq<byte>): (cs: seq<Complex>)
    requires |frame| % 2 == 0
    ensures |cs| == |frame| / 2
    ensures forall i :: 0 <= i < |cs| ==>
              cs[i] == Complex(Normalize8(frame[2 * i]), Normalize8(frame[2 * i + 1]))
    ensures forall i :: 0 <= i < |cs| ==>
              -1.0 <= cs[i].re <= 127.0 / 128.0 && -1.0 <= cs[i].im <= 127.0 / 128.0
  {
    Interleaved(seq(|frame|, k requires 0 <= k < |frame| => Normalize8(frame[k])))
  }

  /** The planned forward FFT maps a block of NUM_SAMPLES samples to
      NUM_SAMPLES bins; nothing else about it is assumed. */
  ghost predicate IsBlockTransform(fft: seq<Complex> -> seq<Complex>) {
    forall x: seq<Complex> :: |x| == NUM_SAMPLES ==> |fft(x)| == NUM_SAMPLES
  }

  /** The FFT bins of one frame. */
  function FrameSpectrum(fft: seq<Complex> -> seq<Complex>, frame: seq<byte>): (bins: seq<Complex>)
    requires IsBlockTransform(fft) && |frame| == FRAME_BYTES
    ensures |bins| == NUM_SAMPLES
  {
    fft(Samples8(frame))
  }

  predicate AllFrames(frames: seq<seq<byte>>) {
    forall k :: 0 <= k < |frames| ==> |frames[k]| == FRAME_BYTES
  }

  function Spectra(fft: seq<Complex> -> seq<Complex>, frames: seq<seq<byte>>): (s: seq<seq<Complex>>)
    requires IsBlockTransform(fft) && AllFrames(frames)
    ensures |s| == |frames| && Uniform(s, NUM_SAMPLES)
    ensures forall k :: 0 <= k < |frames| ==> s[k] == FrameSpectrum(fft, frames[k])
  {
    seq(|frames|, k requires 0 <= k < |frames| => FrameSpectrum(fft, frames[k]))
  }

  /** The block `get_block` returns for the frames it read. */
  function Block(fft: seq<Complex> -> seq<Complex>, averaging: nat, frames: seq<seq<byte>>): (p: seq<real>)
    requires averaging >= 1 && IsBlockTransform(fft) && AllFrames(frames)
    ensures |p| == NUM_SAMPLES
    ensures forall i :: 0 <= i < NUM_SAMPLES ==> p[i] >= 0.0
  {
    MeanPower(Spectra(fft, frames), NUM_SAMPLES, averaging)
  }

  /** With `averaging == 1` the block is the squared magnitude of the one
      frame's FFT. */
  lemma BlockOfOneFrame(fft: seq<Complex> -> seq<Complex>, frame: seq<byte>)
    requires IsBlockTransform(fft) && |frame| == FRAME_BYTES
    ensures Block(fft, 1, [frame]) == Powers(FrameSpectrum(fft, frame))
  {
    assert Spectra(fft, [frame]) == [FrameSpectrum(fft, frame)];
    SingleFrame(FrameSpectrum(fft, frame));
  }

  /** With N identical frames the block is the squared magnitude of the one
      frame's FFT: the scaling makes it a mean, not a sum. */
  lemma BlockOfIdenticalFrames(fft: seq<Complex> -> seq<Complex>, frames: seq<seq<byte>>, frame: seq<byte>)
    requires IsBlockTransform(fft) && |frame| == FRAME_BYTES
    requires |frames| >= 1 && forall k :: 0 <= k < |frames| ==> frames[k] == frame
    ensures Block(fft, |frames|, frames) == Powers(FrameSpectrum(fft, frame))
  {
    MeanOfIdentical(Spectra(fft, frames), FrameSpectrum(fft, frame));
  }

  class DataSupplier {
    /** Number of frames averaged per block (u32). */
    const averaging: nat
    /** The FFT planned for NUM_SAMPLES points. */
    const fft: seq<Complex> -> seq<Complex>
    /** Raw bytes of the last read. */
    const buffer: array<byte>
    /** The last frame converted to complex samples. */
    const bufferC32: array<Complex>
    /** The accumulator, and the block returned. */
    const bufferMagsq: array<real>

    ghost predicate Valid()
      reads this
    {
      && 1 <= averaging <= U32_MAX
      && IsBlockTransform(fft)
      && buffer.Length == FRAME_BYTES
      && bufferC32.Length == NUM_SAMPLES
      && bufferMagsq.Length == NUM_SAMPLES
    }

    /** The complex buffer holds the FFT of the frame in the byte buffer, as
        every loop round leaves it. */
    ghost predicate Transformed()
      reads this, buffer, bufferC32
    {
      && buffer.Length == FRAME_BYTES
      && IsBlockTransform(fft)
      && bufferC32[..] == FrameSpectrum(fft, buffer[..])
    }

    constructor (averaging: nat, fft: seq<Complex> -> seq<Complex>)
      requires 1 <= averaging <= U32_MAX
      requires IsBlockTransform(fft)
      ensures Valid() && this.averaging == averaging && this.fft == fft
      ensures fresh(buffer) && fresh(bufferC32) && fresh(bufferMagsq)
      ensures forall j :: 0 <= j < FRAME_BYTES ==> buffer[j] == 0
      ensures forall i :: 0 <= i < NUM_SAMPLES ==> bufferC32[i] == Complex(0.0, 0.0)
      ensures forall i :: 0 <= i < NUM_SAMPLES ==> bufferMagsq[i] == 0.0
    {
      this.averaging := averaging;
      this.fft := fft;
      buffer := new byte[FRAME_BYTES](_ => 0);
      bufferC32 := new Complex[NUM_SAMPLES](_ => Complex(0.0, 0.0));
      bufferMagsq := new real[NUM_SAMPLES](_ => 0.0);
    }

    /** `get_block`: zero the accumulator, then `averaging` times read a
        frame (a failed read panics, with no retry), convert it, transform
        it and add its squared magnitudes bin by bin; finally scale by
        `1/averaging`. The block depends only on the frames read in this
        call, never on the accumulator's earlier contents. */
    method GetBlock(transfers: seq<Transfer>) returns (outcome: Fetch)
      requires Valid()
      requires |transfers| == averaging
      requires forall k :: 0 <= k < |transfers| && transfers[k].Received? ==>
                 |transfers[k].data| == FRAME_BYTES
      modifies buffer, bufferC32, bufferMagsq
      ensures StopsAtFirstFailure(outcome, transfers)
      ensures outcome.Delivered? ==> bufferMagsq[..] == Block(fft, averaging, Payloads(transfers))
      ensures outcome.Delivered? ==> buffer[..] == transfers[averaging - 1].data && Transformed()
    {
      ResetAccumulator();

      ghost var spectra: seq<seq<Complex>> := [];
      for k := 0 to averaging
        invariant AllReceived(transfers[..k])
        invariant |spectra| == k && Uniform(spectra, NUM_SAMPLES)
        invariant forall j :: 0 <= j < k ==> spectra[j] == FrameSpectrum(fft, transfers[j].data)
        invariant forall i :: 0 <= i < NUM_SAMPLES ==> bufferMagsq[i] == BinSum(spectra, i)
        invariant k > 0 ==> buffer[..] == transfers[k - 1].data && Transformed()
      {
        if transfers[k].Failed? {
          return Panicked(k + 1);
        }
        ReadAndAccumulate(transfers[k].data, spectra);
        spectra := spectra + [FrameSpectrum(fft, transfers[k].data)];
        assert transfers[..k + 1] == transfers[..k] + [transfers[k]];
      }

      Scale(spectra);
      assert transfers[..averaging] == transfers;
      assert spectra == Spectra(fft, Payloads(transfers));
      return Delivered;
    }

    /** One round of the loop: read a frame, convert it, transform it in
        place and add its squared magnitudes to the accumulator. */
    method ReadAndAccumulate(data: seq<byte>, ghost spectra: seq<seq<Complex>>)
      requires Valid() && |data| == FRAME_BYTES && Uniform(spectra, NUM_SAMPLES)
      requires forall i :: 0 <= i < NUM_SAMPLES ==> bufferMagsq[i] == BinSum(spectra, i)
      modifies buffer, bufferC32, bufferMagsq
      ensures buffer[..] == data && Transformed()
      ensures forall i :: 0 <= i < NUM_SAMPLES ==>
                bufferMagsq[i] == BinSum(spectra + [FrameSpectrum(fft, data)], i)
    {
      ReadExact(data);
      ConvertFrame();
      Transform();
      Accumulate(spectra);
    }

    /** `buffer_magsq.iter_mut().for_each(|x| *x = 0.0)`. */
    method ResetAccumulator()
      requires Valid()
      modifies bufferMagsq
      ensures forall i :: 0 <= i < NUM_SAMPLES ==> bufferMagsq[i] == 0.0
    {
      for i := 0 to NUM_SAMPLES
        invariant forall j :: 0 <= j < i ==> bufferMagsq[j] == 0.0
      {
        bufferMagsq[i] := 0.0;
      }
    }

    /** `read_exact(&mut buffer)` that succeeded with `data`. */
    method ReadExact(data: seq<byte>)
      requires Valid() && |data| == FRAME_BYTES
      modifies buffer
      ensures buffer[..] == data
    {
      forall j | 0 <= j < FRAME_BYTES {
        buffer[j] := data[j];
      }
    }

    /** The conversion loop from raw bytes to complex samples. */
    method ConvertFrame()
      requires Valid()
      modifies bufferC32
      ensures bufferC32[..] == Samples8(buffer[..])
    {
      for i := 0 to NUM_SAMPLES
        invariant forall j :: 0 <= j < i ==>
                    bufferC32[j] == Complex(Normalize8(buffer[2 * j]), Normalize8(buffer[2 * j + 1]))
      {
        bufferC32[i] := Complex(Normalize8(buffer[2 * i]), Normalize8(buffer[2 * i + 1]));
      }
    }

    /** `process_with_scratch`: the FFT overwrites the complex buffer with
        its bins. */
    method Transform()
      requires Valid()
      modifies bufferC32
      ensures bufferC32[..] == fft(old(bufferC32[..]))
    {
      var bins := fft(bufferC32[..]);
      forall i | 0 <= i < NUM_SAMPLES {
        bufferC32[i] := bins[i];
      }
    }

    /** The loop adding the squared magnitude of every FFT bin to the same
        accumulator bin. */
    method Accumulate(ghost spectra: seq<seq<Complex>>)
      requires Valid() && Uniform(spectra, NUM_SAMPLES)
      requires forall i :: 0 <= i < NUM_SAMPLES ==> bufferMagsq[i] == BinSum(spectra, i)
      modifies bufferMagsq
      ensures forall i :: 0 <= i < NUM_SAMPLES ==> bufferMagsq[i] == BinSum(spectra + [bufferC32[..]], i)
    {
      ghost var bins := bufferC32[..];
      for i := 0 to NUM_SAMPLES
        invariant forall j :: 0 <= j < i ==> bufferMagsq[j] == BinSum(spectra + [bins], j)
        invariant forall j :: i <= j < NUM_SAMPLES ==> bufferMagsq[j] == BinSum(spectra, j)
      {
        BinSumSnoc(spectra, bins, i);
        bufferMagsq[i] := bufferMagsq[i] + (bufferC32[i].re * bufferC32[i].re + bufferC32[i].im * bufferC32[i].im);
      }
    }

    /** The final loop multiplying every bin by `1.0 / averaging`. */
    method Scale(ghost spectra: seq<seq<Complex>>)
      requires Valid() && Uniform(spectra, NUM_SAMPLES)
      requires forall i :: 0 <= i < NUM_SAMPLES ==> bufferMagsq[i] == BinSum(spectra, i)
      modifies bufferMagsq
      ensures bufferMagsq[..] == MeanPower(spectra, NUM_SAMPLES, averaging)
    {
      var averagingInv := 1.0 / averaging as real;
      for i := 0 to NUM_SAMPLES
        invariant forall j :: 0 <= j < i ==> bufferMagsq[j] == Mean(BinSum(spectra, j), averaging)
        invariant forall j :: i <= j < NUM_SAMPLES ==> bufferMagsq[j] == BinSum(spectra, j)
      {
        bufferMagsq[i] := bufferMagsq[i] * averagingInv;
      }
    }
  }
}
