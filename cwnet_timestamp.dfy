/**
 * The CWNet 7-bit timestamp of a CW stream byte: a duration in milliseconds
 * squeezed into bits 6-0 on three linear pieces — 1 ms steps up to 31 ms,
 * 4 ms steps up to 156 ms and 16 ms steps up to 1165 ms. Bit 7 of a stream
 * byte carries the key state and is not part of the timestamp.
 */
module CwnetTimestamp {
  import opened Common

  const LinearMaxMs: int := 31
  const MediumMinMs: int := 32
  const MediumMaxMs: int := 156
  const LongMinMs: int := 157
  const LongMaxMs: int := 1165
  const MediumBase: int := 0x20
  const LongBase: int := 0x40
  const MediumDivisor: int := 4
  const LongDivisor: int := 16
  const MaxEncoded: int := 0x7F

  /**
   * cwstream_encode_timestamp: negative durations clamp to 0, durations
   * past the long range clamp to 0x7F; the result never uses bit 7.
   */
  function Encode(ms: i32): (r: u8)
    ensures r <= MaxEncoded
    ensures ms < 0 ==> r == 0
    ensures ms > LongMaxMs ==> r == MaxEncoded
    ensures 0 <= ms <= LinearMaxMs ==> r == ms
    ensures MediumMinMs <= ms <= MediumMaxMs <==> MediumBase <= r < LongBase
    ensures LongMinMs <= ms <==> LongBase <= r
  {
    if ms < 0 then 0
    else if ms <= LinearMaxMs then ms
    else if ms <= MediumMaxMs then MediumBase + (ms - MediumMinMs) / MediumDivisor
    else if ms <= LongMaxMs then LongBase + (ms - LongMinMs) / LongDivisor
    else MaxEncoded
  }

  /** cwstream_decode_timestamp: bit 7 is masked off before decoding. */
  function Decode(encoded: u8): (r: int)
    ensures 0 <= r <= LongMaxMs
  {
    var value := encoded % 0x80;
    if value < MediumBase then value
    else if value < LongBase then MediumMinMs + MediumDivisor * (value - MediumBase)
    else LongMinMs + LongDivisor * (value - LongBase)
  }

  /** The resolution of the piece a duration falls in. */
  function Resolution(ms: int): (r: int)
    ensures r == 1 || r == MediumDivisor || r == LongDivisor
    ensures ms <= LinearMaxMs <==> r == 1
  {
    if ms <= LinearMaxMs then 1 else if ms <= MediumMaxMs then MediumDivisor else LongDivisor
  }

  /** The durations the codec represents exactly: the grid points of each piece. */
  predicate OnGrid(ms: int)
  {
    (0 <= ms <= LinearMaxMs) ||
    (MediumMinMs <= ms <= MediumMaxMs && (ms - MediumMinMs) % MediumDivisor == 0) ||
    (LongMinMs <= ms <= LongMaxMs && (ms - LongMinMs) % LongDivisor == 0)
  }

  /** The key bit makes no difference to the decoded duration. */
  lemma KeyBitIgnored(e: u8)
    requires e < 0x80
    ensures Decode(e + 0x80) == Decode(e)
  {
    assert (e + 0x80) % 0x80 == e == e % 0x80;
  }

  /** Every 7-bit code decodes to a grid point and encodes back to itself. */
  lemma EncodeDecode(e: u8)
    requires e <= MaxEncoded
    ensures OnGrid(Decode(e))
    ensures Encode(Decode(e)) == e
  {
    var ms := Decode(e);
    if e >= LongBase {
      assert ms - LongMinMs == LongDivisor * (e - LongBase);
      assert (ms - LongMinMs) / LongDivisor == e - LongBase;
    } else if e >= MediumBase {
      assert ms - MediumMinMs == MediumDivisor * (e - MediumBase);
      assert (ms - MediumMinMs) / MediumDivisor == e - MediumBase;
    }
  }

  /**
   * Inside the covered range, decoding an encoded duration rounds it down
   * to the grid of its piece: never above it, and less than one step below.
   */
  lemma DecodeEncodeRoundsDown(ms: i32)
    requires 0 <= ms <= LongMaxMs
    ensures Decode(Encode(ms)) <= ms < Decode(Encode(ms)) + Resolution(ms)
  {
    var e := Encode(ms);
    if ms > MediumMaxMs {
      var q := (ms - LongMinMs) / LongDivisor;
      assert e == LongBase + q && e % 0x80 == e;
      assert LongDivisor * q <= ms - LongMinMs < LongDivisor * q + LongDivisor;
    } else if ms > LinearMaxMs {
      var q := (ms - MediumMinMs) / MediumDivisor;
      assert e == MediumBase + q && e % 0x80 == e;
      assert MediumDivisor * q <= ms - MediumMinMs < MediumDivisor * q + MediumDivisor;
    }
  }

  /** decode(encode(ms)) == ms exactly for the grid points of the three pieces. */
  lemma DecodeEncodeExact(ms: i32)
    requires 0 <= ms <= LongMaxMs
    ensures Decode(Encode(ms)) == ms <==> OnGrid(ms)
  {
    DecodeEncodeRoundsDown(ms);
    var e := Encode(ms);
    EncodeDecode(e);
    if ms > MediumMaxMs {
      var q := (ms - LongMinMs) / LongDivisor;
      assert Decode(e) == LongMinMs + LongDivisor * q;
      assert (ms - LongMinMs) % LongDivisor == ms - LongMinMs - LongDivisor * q;
    } else if ms > LinearMaxMs {
      var q := (ms - MediumMinMs) / MediumDivisor;
      assert Decode(e) == MediumMinMs + MediumDivisor * q;
      assert (ms - MediumMinMs) % MediumDivisor == ms - MediumMinMs - MediumDivisor * q;
    }
  }

  /** A longer duration never encodes to a smaller code. */
  lemma EncodeMonotone(a: i32, b: i32)
    requires a <= b
    ensures Encode(a) <= Encode(b)
  {
    if MediumMinMs <= a && b <= MediumMaxMs {
      var qa, qb := (a - MediumMinMs) / MediumDivisor, (b - MediumMinMs) / MediumDivisor;
      assert MediumDivisor * qa <= a - MediumMinMs && b - MediumMinMs < MediumDivisor * qb + MediumDivisor;
    } else if LongMinMs <= a && b <= LongMaxMs {
      var qa, qb := (a - LongMinMs) / LongDivisor, (b - LongMinMs) / LongDivisor;
      assert LongDivisor * qa <= a - LongMinMs && b - LongMinMs < LongDivisor * qb + LongDivisor;
    }
  }

  /** A larger 7-bit code always decodes to a longer duration. */
  lemma DecodeStrictlyMonotone(e: u8, f: u8)
    requires e < f <= MaxEncoded
    ensures Decode(e) < Decode(f)
  {
  }
}
