/**
 * Shared vocabulary: optional values, fixed-width unsigned integers of the
 * target (ESP32, where `size_t` is 32 bits wide) and the modular-arithmetic
 * facts the power-of-two rings rely on.
 */
module Common {

  datatype Option<T> = None | Some(value: T)

  const U8: int := 0x100
  const U16: int := 0x1_0000
  const U32: int := 0x1_0000_0000
  const I32Min: int := -0x8000_0000
  const I32Max: int := 0x7FFF_FFFF

  type byte = bv8
  type u8 = x: int | 0 <= x < 0x100
  type u16 = x: int | 0 <= x < 0x1_0000
  type u32 = x: int | 0 <= x < 0x1_0000_0000
  type i32 = x: int | -0x8000_0000 <= x < 0x8000_0000

  /** `a.wrapping_sub(b)` / unsigned `a - b` on 32-bit operands. */
  function WrapSub(a: u32, b: u32): (r: u32)
    ensures r == (a - b) % U32
    ensures a >= b ==> r == a - b
    ensures a < b ==> r == a - b + U32
  {
    if a >= b then a - b else a - b + U32
  }

  /** `a.wrapping_add(b)` / unsigned `a + b` on 32-bit operands. */
  function WrapAdd(a: u32, b: u32): (r: u32)
    ensures r == (a + b) % U32
  {
    if a + b < U32 then a + b else a + b - U32
  }

  /** `a.saturating_add(b)` on 32-bit operands. */
  function SatAdd(a: u32, b: u32): (r: u32)
    ensures r == if a + b < U32 then a + b else U32 - 1
  {
    if a + b < U32 then a + b else U32 - 1
  }

  ghost predicate IsPow2(n: int)
    decreases n
  {
    n == 1 || (n > 1 && n % 2 == 0 && IsPow2(n / 2))
  }

  /** A power of two divides every larger power of two (in particular 2^32). */
  lemma {:induction false} Pow2Divides(n: int, m: int)
    requires IsPow2(n) && 0 < m && IsPow2(m) && n <= m
    ensures m % n == 0
    decreases m
  {
    if n > 1 {
      Pow2Divides(n / 2, m / 2);
      var k := (m / 2) / (n / 2);
      assert m / 2 == k * (n / 2);
      assert m == k * n;
      ModMultiple(k, n);
    }
  }

  lemma ModMultiple(k: int, n: int)
    requires n > 0
    ensures (k * n) % n == 0
  {
    ModAddMultiple(0, k, n);
  }

  /** Adding a multiple of n does not change the residue. */
  lemma ModAddMultiple(a: int, k: int, n: int)
    requires n > 0
    ensures (a + k * n) % n == a % n
  {
    var q, r := a / n, a % n;
    assert a == q * n + r;
    assert a + k * n == (q + k) * n + r;
    ModUnique(a + k * n, q + k, r, n);
  }

  /** Reducing the first summand first does not change the residue of a sum. */
  lemma ModOffset(a: int, b: int, n: int)
    requires n > 0
    ensures (a % n + b) % n == (a + b) % n
  {
    ModAddMultiple(a + b, -(a / n), n);
  }

  lemma ModUnique(a: int, q: int, r: int, n: int)
    requires n > 0 && 0 <= r < n && a == q * n + r
    ensures a % n == r && a / n == q
  {
    var q', r' := a / n, a % n;
    assert a == q' * n + r';
    assert (q - q') * n == r' - r;
    if q > q' {
      MulMono(q - q', n);
    } else if q < q' {
      MulMono(q' - q, n);
    }
  }

  lemma MulMono(k: int, n: int)
    requires k >= 1 && n > 0
    ensures k * n >= n
  {
    assert k * n == (k - 1) * n + n;
    MulNonNeg(k - 1, n);
  }

  lemma MulNonNeg(a: int, b: int)
    requires a >= 0 && b >= 0
    ensures a * b >= 0
  {
  }

  /** Two positions fewer than n apart never share a slot of an n-slot ring. */
  lemma ModDistinct(p: int, q: int, n: int)
    requires n > 0 && p < q < p + n
    ensures p % n != q % n
  {
    if p % n == q % n {
      var d := q / n - p / n;
      assert q - p == d * n;
      if d >= 1 { MulMono(d, n); } else { MulNonNeg(-d, n); }
    }
  }

  /** Residues modulo n are preserved by congruence modulo a multiple of n. */
  lemma ModCongruent(a: int, b: int, m: int, n: int)
    requires n > 0 && m > 0 && m % n == 0 && a % m == b % m
    ensures a % n == b % n
  {
    var j := m / n;
    assert m == j * n;
    var k := a / m - b / m;
    assert a - b == k * m;
    assert a == b + (k * j) * n;
    ModAddMultiple(b, k * j, n);
  }

  /**
   * The ring capacities that occur in the sources, and 2^32 itself, are
   * powers of two. IsPow2 is recursive, so each power is established from
   * the one below it, up to 2^32.
   */
  lemma Pow2Literals()
    ensures IsPow2(16) && IsPow2(64) && IsPow2(256) && IsPow2(U32)
  {
    assert IsPow2(0x2);
    assert IsPow2(0x4);
    assert IsPow2(0x8);
    assert IsPow2(0x10);
    assert IsPow2(0x20);
    assert IsPow2(0x40);
    assert IsPow2(0x80);
    assert IsPow2(0x100);
    assert IsPow2(0x200);
    assert IsPow2(0x400);
    assert IsPow2(0x800);
    assert IsPow2(0x1000);
    assert IsPow2(0x2000);
    assert IsPow2(0x4000);
    assert IsPow2(0x8000);
    assert IsPow2(0x10000);
    assert IsPow2(0x20000);
    assert IsPow2(0x40000);
    assert IsPow2(0x80000);
    assert IsPow2(0x100000);
    assert IsPow2(0x200000);
    assert IsPow2(0x400000);
    assert IsPow2(0x800000);
    assert IsPow2(0x1000000);
    assert IsPow2(0x2000000);
    assert IsPow2(0x4000000);
    assert IsPow2(0x8000000);
    assert IsPow2(0x10000000);
    assert IsPow2(0x20000000);
    assert IsPow2(0x40000000);
    assert IsPow2(0x80000000);
    assert IsPow2(0x100000000);
  }

  /** A u32 counter that tracks a count modulo 2^32 stays in step when both advance by one. */
  lemma WrapAddStep(n: int)
    ensures WrapAdd(n % U32, 1) == (n + 1) % U32
  {
    ModAddMultiple(n % U32 + 1, n / U32, U32);
  }

  /**
   * A reader `behind` positions behind a writer that has made `w` writes
   * (the writer's u32 index is `w mod 2^32`) sits in the same slot of an
   * N-slot ring, N dividing 2^32, as logical position `w - behind`.
   */
  lemma SlotOfLag(w: int, writeIdx: u32, idx: u32, n: int)
    requires writeIdx == w % U32 && n > 0 && U32 % n == 0
    ensures idx % n == (w - WrapSub(writeIdx, idx)) % n
  {
    var p := w - WrapSub(writeIdx, idx);
    var j := if writeIdx >= idx then 0 else 1;
    assert idx == p + (j - w / U32) * U32;
    ModAddMultiple(p, j - w / U32, U32);
    assert idx % U32 == p % U32;
    ModCongruent(idx, p, U32, n);
  }

  /** In an N-slot ring, N dividing 2^32, the u32 form of position `p` sits in the slot of `p`. */
  lemma SlotOfPosition(p: int, n: int)
    requires n > 0 && U32 % n == 0
    ensures (p % U32) % n == p % n
  {
    ModCongruent(p % U32, p, U32, n);
  }

  /** After a u32 index steps by one (wrapping), its k-th successor shares a slot with the old index's (k+1)-th. */
  lemma SlotAfterStep(idx: u32, k: nat, n: int)
    requires n > 0 && U32 % n == 0
    ensures (WrapAdd(idx, 1) + k) % n == (idx + (k + 1)) % n
  {
    ModCongruent(WrapAdd(idx, 1) + k, idx + (k + 1), U32, n);
  }

  /**
   * Writing x into the slot just past the queued items of an n-slot ring
   * and leaving every other slot alone queues x behind them.
   */
  lemma RingWrite<T>(before: seq<T>, after: seq<T>, queued: seq<T>, start: int, slot: int, x: T)
    requires 0 < |before| == |after| && |queued| < |before|
    requires forall k | 0 <= k < |queued| :: before[(start + k) % |before|] == queued[k]
    requires slot == (start + |queued|) % |before| && after[slot] == x
    requires forall j | 0 <= j < |after| && j != slot :: after[j] == before[j]
    ensures forall k | 0 <= k < |queued| + 1 :: after[(start + k) % |after|] == (queued + [x])[k]
  {
    var n := |before|;
    forall k | 0 <= k < |queued| + 1
      ensures after[(start + k) % n] == (queued + [x])[k]
    {
      if k < |queued| {
        ModDistinct(start + k, start + |queued|, n);
      }
    }
  }
}
