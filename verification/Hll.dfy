/**
 HyperLogLog registers (pegaflow-common/src/hll.rs). The code works on bytes,
 shifts and masks; the reference reads the hash as one big-endian stream of bits.
 */
module Hll {
  import opened Prelude
  import M = Memory

  type Digest = seq<M.byte>

  /** `MIN_BUCKET_BITS` to `MAX_BUCKET_BITS`. */
  predicate BucketBits(b: nat) { 4 <= b <= 18 }

  function Pow2(n: nat): (r: nat)
    ensures r > 0
  {
    if n == 0 then 1 else 2 * Pow2(n - 1)
  }

  lemma {:induction false} Pow2Add(m: nat, n: nat)
    ensures Pow2(m + n) == Pow2(m) * Pow2(n)
  {
    if m > 0 {
      Pow2Add(m - 1, n);
      assert Pow2(m) * Pow2(n) == 2 * (Pow2(m - 1) * Pow2(n));
    }
  }

  // ---------------------------------------------------------------------------
  // The bit stream
  // ---------------------------------------------------------------------------

  function ByteAt(h: Digest, i: nat): nat { if i < |h| then h[i] as nat else 0 }

  /** Bit `i` of the stream, most significant first; zero past the end. */
  function Bit(h: Digest, i: nat): nat { ByteAt(h, i / 8) / Pow2(7 - i % 8) % 2 }

  /** The number written by bits `from` up to `to`. */
  function Bits(h: Digest, from: nat, end: nat): nat
    requires from <= end
    decreases |h|, end - from
  {
    if from == end then 0 else Bit(h, from) * Pow2(end - from - 1) + Bits(h, from + 1, end)
  }

  /** Position of the first one bit in a range, or its end. */
  function FirstOne(h: Digest, from: nat, end: nat): (r: nat)
    requires from <= end
    ensures from <= r <= end
    ensures forall i :: from <= i < r ==> Bit(h, i) == 0
    ensures r < end ==> Bit(h, r) == 1
    decreases |h|, end - from
  {
    if from == end then end else if Bit(h, from) == 1 then from else FirstOne(h, from + 1, end)
  }

  /** Bits in the stream of an `n`-byte hash; one shorter than four bytes is padded to 32. */
  function StreamBits(n: nat): nat { if n > 4 then 8 * n else 32 }

  /** Register index: the first `b` bits. */
  function Index(h: Digest, b: nat): nat { Bits(h, 0, b) }

  /** Rank: zeros after the index, plus one. */
  function Rank(h: Digest, b: nat): nat
    requires b <= 32
  {
    FirstOne(h, b, StreamBits(|h|)) - b + 1
  }

  lemma {:induction false} BitsBound(h: Digest, from: nat, end: nat)
    requires from <= end
    ensures Bits(h, from, end) < Pow2(end - from)
    decreases |h|, end - from
  {
    if from < end { BitsBound(h, from + 1, end); }
  }

  lemma {:induction false} BitsSplit(h: Digest, from: nat, mid: nat, end: nat)
    requires from <= mid <= end
    ensures Bits(h, from, end) == Bits(h, from, mid) * Pow2(end - mid) + Bits(h, mid, end)
    decreases |h|, mid - from
  {
    if from < mid {
      BitsSplit(h, from + 1, mid, end);
      Pow2Add(mid - from - 1, end - mid);
      Distribute(Bit(h, from), Pow2(mid - from - 1), Bits(h, from + 1, mid), Pow2(end - mid));
    }
  }

  lemma Distribute(a: nat, p: nat, c: nat, q: nat)
    ensures (a * p + c) * q == a * (p * q) + c * q
  {
  }

  /** Halving a quotient. */
  lemma HalfQuotient(x: nat, p: nat)
    requires p > 0
    ensures x / p == 2 * (x / (2 * p)) + x / p % 2
  {
    var y, r := x / p, x % p;
    var z, b := y / 2, y % 2;
    assert x == p * y + r && y == 2 * z + b;
    HalfSplit(x, p, y, z, b, r);
    SplitDivMod(x, z, 2 * p, p * b + r);
  }

  lemma DoubleProduct(p: nat, z: nat, b: nat)
    ensures p * (2 * z + b) == z * (2 * p) + p * b
  {
  }

  lemma HalfSplit(x: nat, p: nat, y: nat, z: nat, b: nat, r: nat)
    requires x == p * y + r && y == 2 * z + b && b < 2 && r < p
    ensures x == z * (2 * p) + (p * b + r) && p * b + r < 2 * p
  {
    assert p * (2 * z + b) == z * (2 * p) + p * b by { DoubleProduct(p, z, b); }
    assert p * b == if b == 0 then 0 else p;
  }

  lemma BitsSnoc(h: Digest, from: nat, end: nat)
    requires from <= end
    ensures Bits(h, from, end + 1) == 2 * Bits(h, from, end) + Bit(h, end)
  {
    BitsSplit(h, from, end, end + 1);
    assert Bits(h, end, end + 1) == Bit(h, end) * Pow2(0) + Bits(h, end + 1, end + 1);
    assert Pow2(1) == 2;
  }

  lemma {:induction false} BytePrefix(h: Digest, k: nat, i: nat)
    requires i <= 8
    ensures Bits(h, 8 * k, 8 * k + i) == ByteAt(h, k) / Pow2(8 - i)
  {
    if i == 0 {
      assert Pow2(8) == 256;
    } else {
      BytePrefix(h, k, i - 1);
      BitsSnoc(h, 8 * k, 8 * k + i - 1);
      BitInByte(h, k, i - 1);
      assert Pow2(8 - (i - 1)) == 2 * Pow2(8 - i);
      HalfQuotient(ByteAt(h, k), Pow2(8 - i));
    }
  }

  lemma BitInByte(h: Digest, k: nat, i: nat)
    requires i < 8
    ensures Bit(h, 8 * k + i) == ByteAt(h, k) / Pow2(7 - i) % 2
  {
    assert (8 * k + i) / 8 == k && (8 * k + i) % 8 == i;
  }

  /** A byte is the number its eight bits write. */
  lemma ByteIsBits(h: Digest, k: nat)
    ensures Bits(h, 8 * k, 8 * k + 8) == ByteAt(h, k)
  {
    BytePrefix(h, k, 8);
    assert Pow2(0) == 1;
  }

  /** Reading one more byte. */
  lemma AppendByte(h: Digest, k: nat)
    ensures Bits(h, 0, 8 * k + 8) == 256 * Bits(h, 0, 8 * k) + ByteAt(h, k)
  {
    ByteIsBits(h, k);
    BitsSplit(h, 0, 8 * k, 8 * k + 8);
    assert Pow2(8) == 256;
  }

  // ---------------------------------------------------------------------------
  // Machine arithmetic
  // ---------------------------------------------------------------------------

  /** Leading zeros of a `width`-bit word. */
  function LeadingZeros(width: nat, x: nat): (r: nat)
    ensures r <= width
  {
    if width == 0 then 0 else if x >= Pow2(width - 1) then 0 else 1 + LeadingZeros(width - 1, x)
  }

  /** Leading zeros of a word find the first one bit of the stream. */
  lemma {:induction false} ZerosFindOne(h: Digest, from: nat, end: nat)
    requires from <= end
    ensures LeadingZeros(end - from, Bits(h, from, end)) == FirstOne(h, from, end) - from
    ensures Bits(h, from, end) == 0 <==> FirstOne(h, from, end) == end
    decreases |h|, end - from
  {
    if from < end {
      BitsBound(h, from + 1, end);
      ZerosFindOne(h, from + 1, end);
      if Bit(h, from) == 1 {
        assert Bits(h, from, end) == Pow2(end - from - 1) + Bits(h, from + 1, end);
      } else {
        assert Bit(h, from) == 0;
        assert Bits(h, from, end) == Bits(h, from + 1, end);
      }
    }
  }

  lemma {:induction false} WiderWord(width: nat, extra: nat, x: nat)
    requires x < Pow2(width)
    ensures LeadingZeros(width + extra, x) == extra + LeadingZeros(width, x)
  {
    if extra > 0 {
      WiderWord(width, extra - 1, x);
      Pow2Grows(width, width + extra - 1);
    }
  }

  lemma {:induction false} Pow2Grows(m: nat, n: nat)
    requires m <= n
    ensures Pow2(m) <= Pow2(n)
  {
    if m < n { Pow2Grows(m, n - 1); }
  }

  function Head24(h: Digest): nat { ByteAt(h, 0) * 65536 + ByteAt(h, 1) * 256 + ByteAt(h, 2) }

  function Head32(h: Digest): nat { ByteAt(h, 0) * 16777216 + ByteAt(h, 1) * 65536 + ByteAt(h, 2) * 256 + ByteAt(h, 3) }

  lemma HeadIsBits(h: Digest)
    ensures Head24(h) == Bits(h, 0, 24) && Head32(h) == Bits(h, 0, 32)
  {
    AppendByte(h, 0);
    AppendByte(h, 1);
    AppendByte(h, 2);
    AppendByte(h, 3);
  }

  /** The shifted word is the register index. */
  lemma BucketIsIndex(h: Digest, b: nat)
    requires BucketBits(b)
    ensures Head24(h) / Pow2(24 - b) == Index(h, b) < Pow2(b)
  {
    HeadIsBits(h);
    BitsSplit(h, 0, b, 24);
    BitsBound(h, b, 24);
    BitsBound(h, 0, b);
    SplitDivMod(Head24(h), Bits(h, 0, b), Pow2(24 - b), Bits(h, b, 24));
  }

  /** The masked word is the rest of the first 32 bits. */
  lemma MaskedIsBits(h: Digest, b: nat)
    requires b <= 32
    ensures Head32(h) % Pow2(32 - b) == Bits(h, b, 32) < Pow2(32 - b)
  {
    HeadIsBits(h);
    BitsSplit(h, 0, b, 32);
    BitsBound(h, b, 32);
    SplitDivMod(Head32(h), Bits(h, 0, b), Pow2(32 - b), Bits(h, b, 32));
  }

  method BucketIndex(h: Digest, b: nat) returns (index: nat)
    requires BucketBits(b)
    ensures index == Index(h, b) && index < Pow2(b)
  {
    BucketIsIndex(h, b);
    index := Head24(h) / Pow2(24 - b);
  }

  /** Searching on from a byte boundary with nothing but zeros before it. */
  lemma ZerosBefore(h: Digest, b: nat, k: nat)
    requires b <= 8 * k && 8 * k + 8 <= StreamBits(|h|) && FirstOne(h, b, 8 * k) == 8 * k
    ensures ByteAt(h, k) == 0 ==> FirstOne(h, b, 8 * k + 8) == 8 * k + 8
    ensures ByteAt(h, k) != 0 ==> FirstOne(h, b, StreamBits(|h|)) == 8 * k + LeadingZeros(8, ByteAt(h, k))
  {
    ByteIsBits(h, k);
    ZerosFindOne(h, 8 * k, 8 * k + 8);
    if ByteAt(h, k) == 0 {
      FirstThrough(h, b, 8 * k, 8 * k + 8);
    } else {
      FirstThrough(h, b, 8 * k, StreamBits(|h|));
      FirstShorter(h, 8 * k, 8 * k + 8, StreamBits(|h|));
    }
  }

  /** Zeros up to `mid` do not change where the first one is. */
  lemma FirstThrough(h: Digest, from: nat, mid: nat, end: nat)
    requires from <= mid <= end && FirstOne(h, from, mid) == mid
    ensures FirstOne(h, from, end) == FirstOne(h, mid, end)
  {
    FirstUnique(h, from, end, FirstOne(h, mid, end));
  }

  lemma FirstShorter(h: Digest, from: nat, mid: nat, end: nat)
    requires from <= mid <= end && FirstOne(h, from, mid) < mid
    ensures FirstOne(h, from, end) == FirstOne(h, from, mid)
  {
    FirstUnique(h, from, end, FirstOne(h, from, mid));
  }

  lemma FirstUnique(h: Digest, from: nat, end: nat, r: nat)
    requires from <= r <= end && (forall i :: from <= i < r ==> Bit(h, i) == 0) && (r < end ==> Bit(h, r) == 1)
    ensures FirstOne(h, from, end) == r
  {
    var f: nat := FirstOne(h, from, end);
    assert r < f ==> Bit(h, r) == 0;
    assert f >= r;
  }

  /** The scan of the code in `u8` arithmetic; None where an addition would leave `u8`. */
  method CountLeadingZeros(h: Digest, b: nat) returns (r: Option<nat>)
    requires BucketBits(b)
    ensures r == if Rank(h, b) - 1 <= U8_MAX then Some(Rank(h, b) - 1) else None
  {
    MaskedIsBits(h, b);
    ZerosFindOne(h, b, 32);
    var masked := Head32(h) % Pow2(32 - b);
    if masked != 0 {
      WiderWord(32 - b, b, masked);
      FirstShorter(h, b, 32, StreamBits(|h|));
      return Some(LeadingZeros(32, masked) - b);
    }
    var count := 32 - b;
    var k := 4;
    while k < |h|
      invariant 4 <= k && (k <= |h| || k == 4)
      invariant count == 8 * k - b && count <= U8_MAX && FirstOne(h, b, 8 * k) == 8 * k
      decreases |h| - k
    {
      ZerosBefore(h, b, k);
      if h[k] != 0 {
        var zeros := count + LeadingZeros(8, h[k] as nat);
        return if zeros <= U8_MAX then Some(zeros) else None;
      }
      if count + 8 > U8_MAX {
        FirstThrough(h, b, 8 * k + 8, StreamBits(|h|));
        return None;
      }
      count, k := count + 8, k + 1;
    }
    return Some(count);
  }

  /** The rank, again in `u8`: the code is safe exactly when the true rank fits. */
  method RankOf(h: Digest, b: nat) returns (r: Option<nat>)
    requires BucketBits(b)
    ensures r == if Rank(h, b) <= U8_MAX then Some(Rank(h, b)) else None
  {
    var zeros := CountLeadingZeros(h, b);
    if zeros.None? || zeros.value + 1 > U8_MAX {
      return None;
    }
    return Some(zeros.value + 1);
  }

  predicate Safe(n: nat, b: nat)
    requires b <= 32
  {
    StreamBits(n) - b + 1 <= U8_MAX
  }

  function AllZero(n: nat): Digest { seq(n, _ => 0) }

  /**
   No hash of a given length overflows, exactly when the length is within the bound; the all-zero
   hash is the worst.
   */
  lemma OverflowExactly(n: nat, b: nat)
    requires BucketBits(b)
    ensures (forall h: Digest :: |h| == n ==> Rank(h, b) <= U8_MAX) <==> Safe(n, b)
    ensures n <= 32 ==> Safe(n, b)
  {
    var zeros := AllZero(n);
    ZeroStream(zeros, b, StreamBits(n));
    assert Rank(zeros, b) == StreamBits(n) - b + 1;
  }

  lemma ZeroStream(h: Digest, from: nat, end: nat)
    requires from <= end && forall i :: 0 <= i < |h| ==> h[i] == 0
    ensures FirstOne(h, from, end) == end
  {
    forall i: nat ensures Bit(h, i) == 0 {
      assert ByteAt(h, i / 8) == 0;
    }
  }
}
