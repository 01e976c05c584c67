/** The USB receiver supplier (`AmaltheaDataSupplier`): it tunes the
    transceiver by vendor control writes to its registers, picks the
    nearest supported sample rate, and in `get_block` averages the squared
    magnitude of raw 16-bit I/Q samples read by bulk transfers (no FFT is
    applied). The USB device is modelled by a log of control writes and by
    the sequence of bulk-transfer outcomes a call sees. */
module AmSource {
  import opened Machine
  import opened Spectrum

  /** Bytes per complex sample: two little-endian i16 values. */
  const ITEMSIZE: nat := 4
  const NUM_SAMPLES: nat := 2048
  /** Size of the bulk-transfer buffer. */
  const TRANSFER_BYTES: nat := ITEMSIZE * NUM_SAMPLES

  // ---------------------------------------------------------------------
  // Registers

  /** One vendor control write: the request's wValue and wIndex fields.
      `write_reg(reg, value)` sends `reg` as wValue and `value` as wIndex;
      the callers pass the data byte first and the register address second. */
  datatype Control = Control(wValue: bv16, wIndex: bv16)

  /** The writes `new` makes: LVDS mode, then AGC disabled. */
  const INIT_WRITES: seq<Control> := [Control(0x16, 0xa), Control(0x0, 0x20B)]

  /** The three writes of `set_frequency` for the channel word ccf0: its
      low byte to register 0x205, its high byte to 0x206, then 0 to 0x208.
      The two bytes put back together give ccf0. */
  function FrequencyWrites(ccf0: bv16): (w: seq<Control>)
    ensures |w| == 3
    ensures w[0].wIndex == 0x205 && w[1].wIndex == 0x206 && w[2] == Control(0, 0x208)
    ensures w[0].wValue < 0x100 && w[1].wValue < 0x100
    ensures (w[1].wValue << 8) | w[0].wValue == ccf0
  {
    [Control(ccf0 & 0xff, 0x205), Control((ccf0 >> 8) & 0xff, 0x206), Control(0x0, 0x208)]
  }

  // ---------------------------------------------------------------------
  // Sample rate selection

  /** The rates the transceiver supports, with the integer divisions
      written as the source writes them. */
  function RateTable(): (t: seq<nat>)
    ensures |t| == 8
    ensures t[2] == 1333333 && t[5] == 666666
    ensures forall i, j :: 0 <= i < j < 8 ==> t[i] > t[j]
    ensures forall i :: 0 <= i < 8 ==> 400000 <= t[i] <= 4000000
  {
    [4000000, 2000000, 4000000 / 3, 1000000, 800000, 2000000 / 3, 500000, 400000]
  }

  /** The register code of each rate, in the same order. */
  const SR_CODES: seq<bv16> := [0x1, 0x2, 0x3, 0x4, 0x5, 0x6, 0x8, 0xA]

  /** The value written to register 0x20A for a rate code: bit 7 set, the
      code in the low bits. */
  function RateRegisterValue(code: bv16): (v: bv16)
    requires code < 0x80
    ensures v & 0x80 == 0x80 && v & 0x7f == code
    ensures v < 0x100
  {
    0x80 | code
  }

  /** The first index among the first n holding the least of them: what a
      scan that keeps a running best and replaces it only on a strictly
      smaller value leaves. */
  function FirstMin(xs: seq<nat>, n: nat): (r: nat)
    requires 1 <= n <= |xs|
    ensures r < n
    ensures forall j :: 0 <= j < n ==> xs[r] <= xs[j]
    ensures forall j :: 0 <= j < r ==> xs[j] > xs[r]
  {
    if n == 1 then 0
    else
      var b := FirstMin(xs, n - 1);
      if xs[n - 1] < xs[b] then n - 1 else b
  }

  /** The exact distance from the requested rate to each table entry. */
  function RateErrors(samplerate: nat): (errs: seq<nat>)
    ensures |errs| == 8
    ensures forall i :: 0 <= i < 8 ==> errs[i] == Dist(samplerate, RateTable()[i])
    ensures forall i :: 0 <= i < 8 ==> (errs[i] == 0 <==> samplerate == RateTable()[i])
  {
    seq(8, i requires 0 <= i < 8 => Dist(samplerate, RateTable()[i]))
  }

  /** The index `set_samplerate` settles on, with exact arithmetic. */
  function SelectRate(samplerate: nat): (r: nat)
    ensures r < 8
  {
    FirstMin(RateErrors(samplerate), 8)
  }

  /** The chosen entry is a nearest one, and every entry before it is
      strictly farther: ties go to the lowest index (the fastest rate). */
  lemma NearestRate(samplerate: nat)
    ensures var r := SelectRate(samplerate);
            && (forall j :: 0 <= j < 8 ==>
                  Dist(samplerate, RateTable()[r]) <= Dist(samplerate, RateTable()[j]))
            && (forall j :: 0 <= j < r ==>
                  Dist(samplerate, RateTable()[j]) > Dist(samplerate, RateTable()[r]))
  {
    var errs := RateErrors(samplerate);
    var r := FirstMin(errs, 8);
    forall j | 0 <= j < 8
      ensures Dist(samplerate, RateTable()[r]) <= Dist(samplerate, RateTable()[j])
    {
      assert errs[r] <= errs[j];
    }
    forall j | 0 <= j < r
      ensures Dist(samplerate, RateTable()[j]) > Dist(samplerate, RateTable()[r])
    {
      assert errs[j] > errs[r];
    }
  }

  /** A supported rate selects itself. */
  lemma SupportedRateIsKept(i: nat)
    requires i < 8
    ensures SelectRate(RateTable()[i]) == i
  {
    var t := RateTable();
    var errs := RateErrors(t[i]);
    var r := FirstMin(errs, 8);
    assert errs[i] == 0;
  }

  /** 3 MHz lies midway between 4 MHz and 2 MHz; the tie goes to 4 MHz,
      whose register value is 0x81. */
  lemma MidwayTieGoesToFirst()
    ensures SelectRate(3000000) == 0
    ensures RateRegisterValue(SR_CODES[SelectRate(3000000)]) == 0x81
  {
    var errs := RateErrors(3000000);
    var r := FirstMin(errs, 8);
    assert errs[0] == 1000000 && errs[1] == 1000000;
    assert errs[r] <= errs[0];
  }

  /** The per-entry error as written: `(sr as i32 - rate as i32).abs() as u32`
      in a release build, where the cast of a rate of 2^31 or more wraps to
      a negative value and the subtraction wraps on underflow. */
  function RateErrorAsWritten(samplerate: nat, rate: nat): (e: nat)
    requires IsU32(samplerate) && rate <= 4000000
    ensures IsU32(e)
    ensures samplerate <= I32_MAX ==> e == Dist(samplerate, rate)
  {
    I32AsU32(AbsI32(WrapI32(U32AsI32(samplerate) - rate)))
  }

  function RateErrorsAsWritten(samplerate: nat): (errs: seq<nat>)
    requires IsU32(samplerate)
    ensures |errs| == 8
    ensures forall i :: 0 <= i < 8 ==> errs[i] == RateErrorAsWritten(samplerate, RateTable()[i])
    ensures forall i :: 0 <= i < 8 ==> IsU32(errs[i])
    ensures samplerate <= I32_MAX ==> errs == RateErrors(samplerate)
  {
    seq(8, i requires 0 <= i < 8 => RateErrorAsWritten(samplerate, RateTable()[i]))
  }

  /** The index the source's loop settles on, wrap-around included. */
  function SelectRateAsWritten(samplerate: nat): (r: nat)
    requires IsU32(samplerate)
    ensures r < 8
  {
    FirstMin(RateErrorsAsWritten(samplerate), 8)
  }

  /** Below 2^31 the wrap-around never happens and the two selections agree. */
  lemma SelectRateAsWrittenAgrees(samplerate: nat)
    requires samplerate <= I32_MAX
    ensures SelectRateAsWritten(samplerate) == SelectRate(samplerate)
  {
    assert RateErrorsAsWritten(samplerate) == RateErrors(samplerate);
  }

  /** At 4 GHz the wrapped cast reads the request as a negative rate, so the
      as-written scan picks 400 kHz, the entry farthest from the request,
      where the nearest entry is 4 MHz. */
  lemma SelectRateAsWrittenCounterexample()
    ensures SelectRateAsWritten(4000000000) == 7
    ensures SelectRate(4000000000) == 0
  {
    var t := RateTable();
    var w := RateErrorsAsWritten(4000000000);
    assert U32AsI32(4000000000) == -294967296;
    forall i | 0 <= i < 8 ensures w[i] == 294967296 + t[i] {
      assert WrapI32(U32AsI32(4000000000) - t[i]) == U32AsI32(4000000000) - t[i];
    }
    var e := RateErrors(4000000000);
    assert forall j :: 0 < j < 8 ==> e[j] > e[0];
  }

  // ---------------------------------------------------------------------
  // Sample decoding

  /** The i16 stored little-endian in bytes lo, hi, as two's complement. */
  function AsI16(lo: byte, hi: byte): (v: int)
    ensures -0x8000 <= v < 0x8000
    ensures (v - (lo + 0x100 * hi)) % 0x1_0000 == 0
  {
    if hi < 0x80 then lo + 0x100 * hi else lo + 0x100 * hi - 0x1_0000
  }

  /** The little-endian bytes of an i16. */
  function I16Bytes(v: int): (p: (byte, byte))
    requires -0x8000 <= v < 0x8000
    ensures AsI16(p.0, p.1) == v
  {
    var u := v % 0x1_0000;
    (u % 0x100, u / 0x100)
  }

  /** Decoding two bytes and encoding the value gives the bytes back. */
  lemma I16RoundTrip(lo: byte, hi: byte)
    ensures I16Bytes(AsI16(lo, hi)) == (lo, hi)
  {
  }

  /** `(x as f32) / 32768.0`: in [-1, 1). */
  function Normalize16(v: int): (x: real)
    requires -0x8000 <= v < 0x8000
    ensures -1.0 <= x < 1.0
    ensures x * 32768.0 == v as real
  {
    v as real / 32768.0
  }

  /** The normalised i16 stream of a raw buffer: value k from bytes 2k, 2k+1. */
  function Normalized16(raw: seq<byte>): (xs: seq<real>)
    requires |raw| % 2 == 0
    ensures |xs| == |raw| / 2
    ensures forall k :: 0 <= k < |xs| ==> xs[k] == Normalize16(AsI16(raw[2 * k], raw[2 * k + 1]))
    ensures forall k :: 0 <= k < |xs| ==> -1.0 <= xs[k] < 1.0
  {
    seq(|raw| / 2, k requires 0 <= k < |raw| / 2 => Normalize16(AsI16(raw[2 * k], raw[2 * k + 1])))
  }

  /** Normalising loses nothing: scaling value k back by 32768 and storing
      it little-endian gives bytes 2k and 2k+1 of the buffer again. */
  lemma Normalized16RoundTrip(raw: seq<byte>, k: nat)
    requires |raw| % 2 == 0 && k < |raw| / 2
    ensures -0x8000 <= (Normalized16(raw)[k] * 32768.0).Floor < 0x8000
    ensures I16Bytes((Normalized16(raw)[k] * 32768.0).Floor) == (raw[2 * k], raw[2 * k + 1])
  {
    var v := AsI16(raw[2 * k], raw[2 * k + 1]);
    assert Normalized16(raw)[k] * 32768.0 == v as real;
    I16RoundTrip(raw[2 * k], raw[2 * k + 1]);
  }

  /** The complex samples of a raw buffer: sample i takes re from bytes
      4i, 4i+1 and im from bytes 4i+2, 4i+3. */
  function Samples16(raw: seq<byte>): (cs: seq<Complex>)
    requires |raw| % 4 == 0
    ensures |cs| == |raw| / 4
  {
    HalfOfQuad(|raw|);
    Interleaved(Normalized16(raw))
  }

  lemma HalfOfQuad(n: nat)
    requires n % 4 == 0
    ensures (n / 2) % 2 == 0 && (n / 2) / 2 == n / 4
  {
    var q := n / 4;
    assert n == 4 * q;
    assert n / 2 == 2 * q;
  }

  lemma Samples16Layout(raw: seq<byte>, i: nat)
    requires |raw| % 4 == 0 && i < |raw| / 4
    ensures Samples16(raw)[i] == Complex(Normalize16(AsI16(raw[4 * i], raw[4 * i + 1])),
                                         Normalize16(AsI16(raw[4 * i + 2], raw[4 * i + 3])))
    ensures -1.0 <= Samples16(raw)[i].re < 1.0 && -1.0 <= Samples16(raw)[i].im < 1.0
  {
    var xs := Normalized16(raw);
    assert Samples16(raw)[i] == Complex(xs[2 * i], xs[2 * i + 1]);
    assert 2 * (2 * i) == 4 * i && 2 * (2 * i + 1) == 4 * i + 2;
  }

  // ---------------------------------------------------------------------
  // Short transfers

  /** What a bulk transfer of `data` leaves in the buffer: the bytes received
      at the front, the previous contents behind them. The received count is
      ignored, so the whole buffer is decoded either way. */
  function Overlay(buf: seq<byte>, data: seq<byte>): (r: seq<byte>)
    requires |data| <= |buf|
    ensures |r| == |buf|
    ensures r[..|data|] == data && r[|data|..] == buf[|data|..]
  {
    data + buf[|data|..]
  }

  predicate Fits(chunks: seq<seq<byte>>) {
    forall k :: 0 <= k < |chunks| ==> |chunks[k]| <= TRANSFER_BYTES
  }

  /** The buffer after the transfers `chunks`, starting from `buf0`. */
  function BufferAfter(buf0: seq<byte>, chunks: seq<seq<byte>>): (r: seq<byte>)
    requires |buf0| == TRANSFER_BYTES && Fits(chunks)
    ensures |r| == TRANSFER_BYTES
  {
    if chunks == [] then buf0
    else Overlay(BufferAfter(buf0, chunks[..|chunks| - 1]), chunks[|chunks| - 1])
  }

  /** The buffer decoded after each transfer of a call. */
  function Held(buf0: seq<byte>, chunks: seq<seq<byte>>): (frames: seq<seq<byte>>)
    requires |buf0| == TRANSFER_BYTES && Fits(chunks)
    ensures |frames| == |chunks|
    ensures forall k :: 0 <= k < |chunks| ==> |frames[k]| == TRANSFER_BYTES
  {
    seq(|chunks|, k requires 0 <= k < |chunks| => BufferAfter(buf0, chunks[..k + 1]))
  }

  /** One more transfer overlays its bytes on the buffer and adds the
      result to the frames decoded. */
  lemma HeldSnoc(buf0: seq<byte>, chunks: seq<seq<byte>>, data: seq<byte>)
    requires |buf0| == TRANSFER_BYTES && Fits(chunks) && |data| <= TRANSFER_BYTES
    ensures Fits(chunks + [data])
    ensures BufferAfter(buf0, chunks + [data]) == Overlay(BufferAfter(buf0, chunks), data)
    ensures Held(buf0, chunks + [data]) == Held(buf0, chunks) + [BufferAfter(buf0, chunks + [data])]
  {
    var c := chunks + [data];
    assert c[..|chunks|] == chunks;
    assert c[..|c|] == c;
    forall k | 0 <= k < |chunks| ensures Held(buf0, c)[k] == Held(buf0, chunks)[k] {
      assert c[..k + 1] == chunks[..k + 1];
    }
  }

  /** A complete transfer replaces the whole buffer. */
  lemma FullTransferReplaces(buf0: seq<byte>, chunks: seq<seq<byte>>)
    requires |buf0| == TRANSFER_BYTES && Fits(chunks)
    requires |chunks| >= 1 && |chunks[|chunks| - 1]| == TRANSFER_BYTES
    ensures BufferAfter(buf0, chunks) == chunks[|chunks| - 1]
  {
    var prev := BufferAfter(buf0, chunks[..|chunks| - 1]);
    assert prev[TRANSFER_BYTES..] == [];
  }

  /** When every transfer is complete the decoded frames are exactly the
      bytes received: nothing of an earlier call shows through. */
  lemma CompleteTransfersHoldOwnBytes(buf0: seq<byte>, chunks: seq<seq<byte>>)
    requires |buf0| == TRANSFER_BYTES
    requires forall k :: 0 <= k < |chunks| ==> |chunks[k]| == TRANSFER_BYTES
    ensures Held(buf0, chunks) == chunks
  {
    forall k | 0 <= k < |chunks| ensures Held(buf0, chunks)[k] == chunks[k] {
      assert chunks[..k + 1][k] == chunks[k];
      FullTransferReplaces(buf0, chunks[..k + 1]);
    }
  }

  /** A transfer that returns no bytes leaves the buffer as it was, so the
      previous frame, possibly one read by an earlier call, is decoded and
      counted again. */
  lemma EmptyTransferRepeats(buf0: seq<byte>, chunks: seq<seq<byte>>)
    requires |buf0| == TRANSFER_BYTES && Fits(chunks)
    ensures Fits(chunks + [[]])
    ensures BufferAfter(buf0, chunks + [[]]) == BufferAfter(buf0, chunks)
  {
    assert (chunks + [[]])[..|chunks|] == chunks;
  }

  // ---------------------------------------------------------------------
  // The block

  /** The complex samples of each frame. */
  function SamplesOf(frames: seq<seq<byte>>): (s: seq<seq<Complex>>)
    requires forall k :: 0 <= k < |frames| ==> |frames[k]| == TRANSFER_BYTES
    ensures |s| == |frames| && Uniform(s, NUM_SAMPLES)
    ensures forall k :: 0 <= k < |frames| ==> s[k] == Samples16(frames[k])
  {
    seq(|frames|, k requires 0 <= k < |frames| => Samples16(frames[k]))
  }

  lemma SamplesOfSnoc(frames: seq<seq<byte>>, frame: seq<byte>)
    requires forall k :: 0 <= k < |frames| ==> |frames[k]| == TRANSFER_BYTES
    requires |frame| == TRANSFER_BYTES
    ensures SamplesOf(frames + [frame]) == SamplesOf(frames) + [Samples16(frame)]
  {
  }

  /** One more transfer adds the frame the buffer then holds. */
  lemma HeldSamplesSnoc(buf0: seq<byte>, chunks: seq<seq<byte>>, data: seq<byte>)
    requires |buf0| == TRANSFER_BYTES && Fits(chunks) && |data| <= TRANSFER_BYTES
    ensures Fits(chunks + [data])
    ensures BufferAfter(buf0, chunks + [data]) == Overlay(BufferAfter(buf0, chunks), data)
    ensures SamplesOf(Held(buf0, chunks + [data]))
            == SamplesOf(Held(buf0, chunks)) + [Samples16(BufferAfter(buf0, chunks + [data]))]
  {
    HeldSnoc(buf0, chunks, data);
    SamplesOfSnoc(Held(buf0, chunks), BufferAfter(buf0, chunks + [data]));
  }

  /** The block `get_block` returns when the transfers of the call delivered
      `chunks` into a buffer that held `buf0`: the mean over the frames of
      the squared magnitude of each raw sample. */
  function AmBlock(averaging: nat, buf0: seq<byte>, chunks: seq<seq<byte>>): (p: seq<real>)
    requires averaging >= 1 && |buf0| == TRANSFER_BYTES && Fits(chunks)
    ensures |p| == NUM_SAMPLES
    ensures forall i :: 0 <= i < NUM_SAMPLES ==> p[i] >= 0.0
  {
    MeanPower(SamplesOf(Held(buf0, chunks)), NUM_SAMPLES, averaging)
  }

  /** With one complete transfer the block is the power of each of its raw
      samples: no transform is applied. */
  lemma AmBlockOfOneTransfer(buf0: seq<byte>, frame: seq<byte>)
    requires |buf0| == TRANSFER_BYTES && |frame| == TRANSFER_BYTES
    ensures AmBlock(1, buf0, [frame]) == Powers(Samples16(frame))
  {
    CompleteTransfersHoldOwnBytes(buf0, [frame]);
    assert SamplesOf([frame]) == [Samples16(frame)];
    SingleFrame(Samples16(frame));
  }

  /** With complete transfers the block does not depend on what the buffer
      held before the call. */
  lemma CompleteTransfersForgetBuffer(buf0: seq<byte>, buf1: seq<byte>, averaging: nat, chunks: seq<seq<byte>>)
    requires averaging >= 1 && |buf0| == TRANSFER_BYTES && |buf1| == TRANSFER_BYTES
    requires forall k :: 0 <= k < |chunks| ==> |chunks[k]| == TRANSFER_BYTES
    ensures AmBlock(averaging, buf0, chunks) == AmBlock(averaging, buf1, chunks)
  {
    CompleteTransfersHoldOwnBytes(buf0, chunks);
    CompleteTransfersHoldOwnBytes(buf1, chunks);
  }

  /** A single transfer that returns nothing yields the power of whatever
      the buffer held: bytes from the previous call leak into this block. */
  lemma EmptyTransferLeaks(buf0: seq<byte>, none: seq<byte>)
    requires |buf0| == TRANSFER_BYTES && none == []
    ensures AmBlock(1, buf0, [none]) == Powers(Samples16(buf0))
  {
    EmptyTransferRepeats(buf0, []);
    assert [none][..1] == [none];
    assert Held(buf0, [none]) == [buf0];
    assert SamplesOf([buf0]) == [Samples16(buf0)];
    SingleFrame(Samples16(buf0));
  }

  // ---------------------------------------------------------------------
  // The supplier

  class AmaltheaDataSupplier {
    /** Number of transfers averaged per block (u32). */
    const averaging: nat
    /** `1 / averaging`, fixed at construction. */
    const averagingInv: real
    /** Tuning frequency (u32), as last set. */
    var frequency: nat
    /** Sample rate (u32): 0 until set, then a table entry. */
    var samplerate: nat
    /** Every control write sent to the device, in order. */
    var regWrites: seq<Control>
    /** The bulk-transfer buffer. */
    const bufferU8: array<byte>
    /** The normalised i16 stream of the last transfer. */
    const bufferF32: array<real>
    /** The accumulator, and the block returned. */
    const bufferMagsq: array<real>

    ghost predicate Valid()
      reads this
    {
      && 1 <= averaging <= U32_MAX
      && averagingInv == 1.0 / averaging as real
      && IsU32(frequency)
      && (samplerate == 0 || samplerate in RateTable())
      && bufferU8.Length == TRANSFER_BYTES
      && bufferF32.Length == 2 * NUM_SAMPLES
      && bufferMagsq.Length == NUM_SAMPLES
      && bufferF32 != bufferMagsq
    }

    /** The f32 buffer holds the decoded byte buffer, as every loop round
        leaves it. */
    ghost predicate Decoded()
      reads bufferU8, bufferF32
    {
      bufferU8.Length % 2 == 0 && bufferF32[..] == Normalized16(bufferU8[..])
    }

    /** `new`: sets LVDS mode and disables AGC, with zeroed buffers and no
        frequency or rate chosen yet. */
    constructor (averaging: nat)
      requires 1 <= averaging <= U32_MAX
      ensures Valid() && this.averaging == averaging
      ensures frequency == 0 && samplerate == 0 && regWrites == INIT_WRITES
      ensures fresh(bufferU8) && fresh(bufferF32) && fresh(bufferMagsq)
      ensures forall j :: 0 <= j < TRANSFER_BYTES ==> bufferU8[j] == 0
      ensures forall j :: 0 <= j < 2 * NUM_SAMPLES ==> bufferF32[j] == 0.0
      ensures forall i :: 0 <= i < NUM_SAMPLES ==> bufferMagsq[i] == 0.0
    {
      this.averaging := averaging;
      averagingInv := 1.0 / averaging as real;
      frequency := 0;
      samplerate := 0;
      regWrites := INIT_WRITES;
      bufferU8 := new byte[TRANSFER_BYTES](_ => 0);
      bufferF32 := new real[2 * NUM_SAMPLES](_ => 0.0);
      bufferMagsq := new real[NUM_SAMPLES](_ => 0.0);
    }

    /** `write_reg`: one vendor control write. */
    method WriteReg(reg: bv16, value: bv16)
      requires Valid()
      modifies this
      ensures Valid()
      ensures regWrites == old(regWrites) + [Control(reg, value)]
      ensures frequency == old(frequency) && samplerate == old(samplerate)
    {
      regWrites := regWrites + [Control(reg, value)];
    }

    /** `set_frequency`, with the channel word ccf0 the source derives from
        the frequency given as a parameter. */
    method SetFrequency(frequency: nat, ccf0: bv16)
      requires Valid() && IsU32(frequency)
      modifies this
      ensures Valid()
      ensures this.frequency == frequency && samplerate == old(samplerate)
      ensures regWrites == old(regWrites) + FrequencyWrites(ccf0)
    {
      this.frequency := frequency;
      WriteReg(ccf0 & 0xff, 0x205);
      WriteReg((ccf0 >> 8) & 0xff, 0x206);
      WriteReg(0x0, 0x208);
    }

    /** `set_samplerate`: scan the table for the nearest entry, keeping the
        first on ties, store it and write its code to register 0x20A. */
    method SetSamplerate(samplerate: nat)
      requires Valid() && IsU32(samplerate)
      modifies this
      ensures Valid()
      ensures this.samplerate == RateTable()[SelectRate(samplerate)]
      ensures regWrites == old(regWrites) + [Control(RateRegisterValue(SR_CODES[SelectRate(samplerate)]), 0x20A)]
      ensures frequency == old(frequency)
    {
      var bestMatch := NearestIndex(samplerate);
      var srValue := SR_CODES[bestMatch];
      this.samplerate := RateTable()[bestMatch];
      WriteReg(0x80 | srValue, 0x20A);
    }

    /** The scan of `set_samplerate` over the table: the running best error
        starts at `u32::MAX` and is replaced only by a strictly smaller one. */
    method NearestIndex(samplerate: nat) returns (bestMatch: nat)
      requires IsU32(samplerate)
      ensures bestMatch == SelectRate(samplerate)
    {
      var rates := RateTable();
      ghost var errs := RateErrors(samplerate);
      bestMatch := 0;
      var lowestErr := U32_MAX;
      for i := 0 to 8
        invariant bestMatch < 8
        invariant i == 0 ==> lowestErr == U32_MAX
        invariant i > 0 ==> bestMatch == FirstMin(errs, i) && lowestErr == errs[bestMatch]
      {
        var err := Dist(samplerate, rates[i]);
        assert err == errs[i] < U32_MAX;
        if err < lowestErr {
          bestMatch := i;
          lowestErr := err;
        }
      }
    }

    /** `get_block`: zero the accumulator, then `averaging` times receive a
        bulk transfer into the buffer (a failed transfer panics, with no
        retry), decode the whole buffer and add the squared magnitude of
        each raw sample to its bin; finally scale by `averaging_inv`. */
    method GetBlock(transfers: seq<Transfer>) returns (outcome: Fetch)
      requires Valid()
      requires |transfers| == averaging
      requires forall k :: 0 <= k < |transfers| && transfers[k].Received? ==>
                 |transfers[k].data| <= TRANSFER_BYTES
      modifies bufferU8, bufferF32, bufferMagsq
      ensures StopsAtFirstFailure(outcome, transfers)
      ensures outcome.Delivered? ==>
                && Fits(Payloads(transfers))
                && bufferU8[..] == BufferAfter(old(bufferU8[..]), Payloads(transfers))
                && bufferMagsq[..] == AmBlock(averaging, old(bufferU8[..]), Payloads(transfers))
                && Decoded()
    {
      ghost var buf0 := bufferU8[..];
      ResetAccumulator();

      ghost var received: seq<seq<byte>> := [];
      for k := 0 to averaging
        invariant AllReceived(transfers[..k])
        invariant received == Payloads(transfers[..k]) && Fits(received)
        invariant bufferU8[..] == BufferAfter(buf0, received)
        invariant forall i :: 0 <= i < NUM_SAMPLES ==>
                    bufferMagsq[i] == BinSum(SamplesOf(Held(buf0, received)), i)
        invariant k == 0 || Decoded()
      {
        if transfers[k].Failed? {
          return Panicked(k + 1);
        }
        ReceiveAndAccumulate(transfers[k].data, SamplesOf(Held(buf0, received)));
        HeldSamplesSnoc(buf0, received, transfers[k].data);
        PayloadsSnoc(transfers, k);
        received := received + [transfers[k].data];
      }

      Scale(SamplesOf(Held(buf0, received)));
      assert transfers[..averaging] == transfers;
      return Delivered;
    }

    /** One round of the loop: receive `data` into the buffer, decode the
        whole buffer and add its squared magnitudes to the accumulator. */
    method ReceiveAndAccumulate(data: seq<byte>, ghost samples: seq<seq<Complex>>)
      requires Valid() && |data| <= TRANSFER_BYTES && Uniform(samples, NUM_SAMPLES)
      requires forall i :: 0 <= i < NUM_SAMPLES ==> bufferMagsq[i] == BinSum(samples, i)
      modifies bufferU8, bufferF32, bufferMagsq
      ensures bufferU8[..] == Overlay(old(bufferU8[..]), data)
      ensures Decoded()
      ensures forall i :: 0 <= i < NUM_SAMPLES ==>
                bufferMagsq[i] == BinSum(samples + [Samples16(bufferU8[..])], i)
    {
      ReceiveInto(data);
      DecodeFrame();
      ghost var frame := Samples16(bufferU8[..]);
      assert frame == Interleaved(bufferF32[..]);
      Accumulate(samples, frame);
    }

    /** Zero every bin of the accumulator. */
    method ResetAccumulator()
      requires Valid()
      modifies bufferMagsq
      ensures forall i :: 0 <= i < NUM_SAMPLES ==> bufferMagsq[i] == 0.0
    {
      for i := 0 to NUM_SAMPLES
        invariant forall j :: 0 <= j < i ==> bufferMagsq[j] == 0.0
      {
        bufferMagsq[i] := 0.0;
      }
    }

    /** `read_bulk` that succeeded with `data`: the received bytes land at
        the front of the buffer. */
    method ReceiveInto(data: seq<byte>)
      requires Valid() && |data| <= TRANSFER_BYTES
      modifies bufferU8
      ensures bufferU8[..] == Overlay(old(bufferU8[..]), data)
    {
      forall j | 0 <= j < |data| {
        bufferU8[j] := data[j];
      }
    }

    /** The conversion of the buffer to normalised i16 values. */
    method DecodeFrame()
      requires Valid()
      modifies bufferF32
      ensures bufferF32[..] == Normalized16(bufferU8[..])
    {
      for i := 0 to 2 * NUM_SAMPLES
        invariant forall j :: 0 <= j < i ==>
                    bufferF32[j] == Normalize16(AsI16(bufferU8[2 * j], bufferU8[2 * j + 1]))
      {
        bufferF32[i] := Normalize16(AsI16(bufferU8[2 * i], bufferU8[2 * i + 1]));
      }
    }

    /** The loop adding `norm_sqr` of each (re, im) pair of the decoded
        stream to the same accumulator bin. */
    method Accumulate(ghost samples: seq<seq<Complex>>, ghost frame: seq<Complex>)
      requires Valid() && Uniform(samples, NUM_SAMPLES)
      requires frame == Interleaved(bufferF32[..])
      requires forall i :: 0 <= i < NUM_SAMPLES ==> bufferMagsq[i] == BinSum(samples, i)
      modifies bufferMagsq
      ensures forall i :: 0 <= i < NUM_SAMPLES ==> bufferMagsq[i] == BinSum(samples + [frame], i)
    {
      for i := 0 to NUM_SAMPLES
        invariant forall j :: 0 <= j < i ==> bufferMagsq[j] == BinSum(samples + [frame], j)
        invariant forall j :: i <= j < NUM_SAMPLES ==> bufferMagsq[j] == BinSum(samples, j)
      {
        BinSumSnoc(samples, frame, i);
        assert frame[i] == Complex(bufferF32[2 * i], bufferF32[2 * i + 1]);
        bufferMagsq[i] := bufferMagsq[i] + MagSq(Complex(bufferF32[2 * i], bufferF32[2 * i + 1]));
      }
    }

    /** The final loop multiplying every bin by `averaging_inv`. */
    method Scale(ghost samples: seq<seq<Complex>>)
      requires Valid() && Uniform(samples, NUM_SAMPLES)
      requires forall i :: 0 <= i < NUM_SAMPLES ==> bufferMagsq[i] == BinSum(samples, i)
      modifies bufferMagsq
      ensures bufferMagsq[..] == MeanPower(samples, NUM_SAMPLES, averaging)
    {
      for i := 0 to NUM_SAMPLES
        invariant forall j :: 0 <= j < i ==> bufferMagsq[j] == Mean(BinSum(samples, j), averaging)
        invariant forall j :: i <= j < NUM_SAMPLES ==> bufferMagsq[j] == BinSum(samples, j)
      {
        bufferMagsq[i] := bufferMagsq[i] * averagingInv;
      }
    }
  }
}
