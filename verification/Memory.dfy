/**
 Byte memories and batches of copies between them: what a transfer backend
 (pegaflow-core/src/transfer) does with a descriptor list.
 */
module Memory {
  type byte = x: int | 0 <= x < 256
  type Mem = seq<byte>

  /** One contiguous copy between device and host memory; the batch decides the direction. */
  datatype CopyDesc = CopyDesc(device: nat, host: nat, size: nat)

  /** One contiguous copy from a source memory into another memory. */
  datatype Move = Move(dst: nat, src: nat, size: nat)

  function ToHost(c: CopyDesc): Move { Move(c.host, c.device, c.size) }

  function ToDevice(c: CopyDesc): Move { Move(c.device, c.host, c.size) }

  function AllToHost(cs: seq<CopyDesc>): (r: seq<Move>)
    ensures |r| == |cs| && forall i :: 0 <= i < |cs| ==> r[i] == ToHost(cs[i])
  {
    seq(|cs|, i requires 0 <= i < |cs| => ToHost(cs[i]))
  }

  function AllToDevice(cs: seq<CopyDesc>): (r: seq<Move>)
    ensures |r| == |cs| && forall i :: 0 <= i < |cs| ==> r[i] == ToDevice(cs[i])
  {
    seq(|cs|, i requires 0 <= i < |cs| => ToDevice(cs[i]))
  }

  predicate Fits(m: Move, dst: Mem, src: Mem) {
    m.dst + m.size <= |dst| && m.src + m.size <= |src|
  }

  predicate AllFit(ms: seq<Move>, dst: Mem, src: Mem) {
    forall i :: 0 <= i < |ms| ==> Fits(ms[i], dst, src)
  }

  function Blit(dst: Mem, src: Mem, m: Move): (r: Mem)
    requires Fits(m, dst, src)
    ensures |r| == |dst|
  {
    dst[..m.dst] + src[m.src..m.src + m.size] + dst[m.dst + m.size..]
  }

  /** The destination after the batch has run, in order. */
  function Applied(dst: Mem, src: Mem, ms: seq<Move>): (r: Mem)
    requires AllFit(ms, dst, src)
    ensures |r| == |dst|
  {
    if ms == [] then dst
    else Blit(Applied(dst, src, ms[..|ms| - 1]), src, ms[|ms| - 1])
  }

  predicate Covers(m: Move, a: nat) { m.dst <= a < m.dst + m.size }

  /** The byte a move puts at an address it covers. */
  function Delivered(src: Mem, m: Move, a: nat): byte
    requires Covers(m, a) && m.src + m.size <= |src|
  {
    src[m.src + (a - m.dst)]
  }

  /** Moves that meet at an address bring the same byte. */
  ghost predicate Agreeing(src: Mem, ms: seq<Move>)
    requires forall i :: 0 <= i < |ms| ==> ms[i].src + ms[i].size <= |src|
  {
    forall i, j, a: nat :: 0 <= i < j < |ms| && Covers(ms[i], a) && Covers(ms[j], a) ==>
      Delivered(src, ms[i], a) == Delivered(src, ms[j], a)
  }

  lemma BlitAt(dst: Mem, src: Mem, m: Move, a: nat)
    requires Fits(m, dst, src) && a < |dst|
    ensures Blit(dst, src, m)[a] == if Covers(m, a) then Delivered(src, m, a) else dst[a]
  {
  }

  /** Addresses no move covers keep their byte. */
  lemma {:induction false} UncoveredKept(dst: Mem, src: Mem, ms: seq<Move>, a: nat)
    requires AllFit(ms, dst, src) && a < |dst|
    requires forall i :: 0 <= i < |ms| ==> !Covers(ms[i], a)
    ensures Applied(dst, src, ms)[a] == dst[a]
  {
    if ms != [] {
      var n := |ms| - 1;
      UncoveredKept(dst, src, ms[..n], a);
      BlitAt(Applied(dst, src, ms[..n]), src, ms[n], a);
    }
  }

  /** In an agreeing batch every covered address ends up with the byte of any move covering it. */
  lemma {:induction false} CoveredDelivered(dst: Mem, src: Mem, ms: seq<Move>, i: nat, a: nat)
    requires AllFit(ms, dst, src) && Agreeing(src, ms)
    requires i < |ms| && Covers(ms[i], a)
    ensures a < |dst| && Applied(dst, src, ms)[a] == Delivered(src, ms[i], a)
  {
    var n := |ms| - 1;
    var before := Applied(dst, src, ms[..n]);
    BlitAt(before, src, ms[n], a);
    if i < n && !Covers(ms[n], a) {
      assert Agreeing(src, ms[..n]) by {
        assert forall k :: 0 <= k < n ==> ms[..n][k] == ms[k];
      }
      CoveredDelivered(dst, src, ms[..n], i, a);
    }
  }

  /** Byte ranges. */
  function Slice(m: Mem, at: nat, size: nat): Mem
    requires at + size <= |m|
  {
    m[at..at + size]
  }

  /** After an agreeing batch, source and destination of every move hold the same bytes. */
  lemma MoveSynced(dst: Mem, src: Mem, ms: seq<Move>, i: nat)
    requires AllFit(ms, dst, src) && Agreeing(src, ms) && i < |ms|
    ensures Slice(Applied(dst, src, ms), ms[i].dst, ms[i].size) == Slice(src, ms[i].src, ms[i].size)
  {
    var m, r := ms[i], Applied(dst, src, ms);
    forall k: nat | k < m.size
      ensures Slice(r, m.dst, m.size)[k] == Slice(src, m.src, m.size)[k]
    {
      CoveredDelivered(dst, src, ms, i, m.dst + k);
    }
  }

  // ---------------------------------------------------------------------------
  // Running a batch in place
  // ---------------------------------------------------------------------------

  method CopyInto(dst: array<byte>, src: array<byte>, m: Move)
    requires dst != src && Fits(m, dst[..], src[..])
    modifies dst
    ensures dst[..] == Blit(old(dst[..]), src[..], m)
  {
    for k := 0 to m.size
      invariant forall a :: 0 <= a < dst.Length ==>
        dst[a] == if m.dst <= a < m.dst + k then src[m.src + (a - m.dst)] else old(dst[a])
    {
      dst[m.dst + k] := src[m.src + k];
    }
  }

  /** A copy batch changes the destination exactly as the moves say, in order. */
  method RunBatch(dst: array<byte>, src: array<byte>, ms: seq<Move>)
    requires dst != src && AllFit(ms, dst[..], src[..])
    modifies dst
    ensures dst[..] == Applied(old(dst[..]), src[..], ms)
  {
    for i := 0 to |ms|
      invariant dst[..] == Applied(old(dst[..]), src[..], ms[..i])
    {
      assert ms[..i + 1][..i] == ms[..i];
      CopyInto(dst, src, ms[i]);
    }
    assert ms[..|ms|] == ms;
  }

  // ---------------------------------------------------------------------------
  // Coalescing
  // ---------------------------------------------------------------------------

  predicate Adjacent(a: CopyDesc, b: CopyDesc) {
    a.device + a.size == b.device && a.host + a.size == b.host
  }

  function Join(a: CopyDesc, b: CopyDesc): CopyDesc {
    CopyDesc(a.device, a.host, a.size + b.size)
  }

  /** Two move lists with the same effect on all memories the first one fits. */
  ghost predicate SameMoves(xs: seq<Move>, ys: seq<Move>) {
    forall dst: Mem, src: Mem :: SameOn(xs, ys, dst, src)
  }

  ghost predicate SameOn(xs: seq<Move>, ys: seq<Move>, dst: Mem, src: Mem) {
    AllFit(xs, dst, src) ==> AllFit(ys, dst, src) && Applied(dst, src, ys) == Applied(dst, src, xs)
  }

  /** Two batches with the same effect in both directions. */
  ghost predicate SameEffect(xs: seq<CopyDesc>, ys: seq<CopyDesc>) {
    SameMoves(AllToHost(xs), AllToHost(ys)) && SameMoves(AllToDevice(xs), AllToDevice(ys))
  }

  lemma AppliedSnoc(dst: Mem, src: Mem, ms: seq<Move>, m: Move)
    ensures AllFit(ms + [m], dst, src) <==> AllFit(ms, dst, src) && Fits(m, dst, src)
    ensures AllFit(ms + [m], dst, src) ==> Applied(dst, src, ms + [m]) == Blit(Applied(dst, src, ms), src, m)
  {
    assert (ms + [m])[..|ms|] == ms;
    assert forall i :: 0 <= i < |ms| ==> (ms + [m])[i] == ms[i];
    assert (ms + [m])[|ms|] == m;
  }

  lemma JoinedBlit(dst: Mem, src: Mem, a: Move, b: Move)
    requires Fits(a, dst, src) && Fits(b, dst, src)
    requires a.dst + a.size == b.dst && a.src + a.size == b.src
    ensures Fits(Move(a.dst, a.src, a.size + b.size), dst, src)
    ensures Blit(Blit(dst, src, a), src, b) == Blit(dst, src, Move(a.dst, a.src, a.size + b.size))
  {
  }

  lemma SameMovesSnoc(xs: seq<Move>, ys: seq<Move>, m: Move)
    requires SameMoves(xs, ys)
    ensures SameMoves(xs + [m], ys + [m])
  {
    forall dst: Mem, src: Mem
      ensures SameOn(xs + [m], ys + [m], dst, src)
    {
      assert SameOn(xs, ys, dst, src);
      AppliedSnoc(dst, src, xs, m);
      AppliedSnoc(dst, src, ys, m);
    }
  }

  lemma SameMovesJoin(xs: seq<Move>, ys: seq<Move>, a: Move, b: Move)
    requires SameMoves(xs, ys + [a]) && a.dst + a.size == b.dst && a.src + a.size == b.src
    ensures SameMoves(xs + [b], ys + [Move(a.dst, a.src, a.size + b.size)])
  {
    var j := Move(a.dst, a.src, a.size + b.size);
    forall dst: Mem, src: Mem
      ensures SameOn(xs + [b], ys + [j], dst, src)
    {
      assert SameOn(xs, ys + [a], dst, src);
      AppliedSnoc(dst, src, xs, b);
      AppliedSnoc(dst, src, ys, a);
      AppliedSnoc(dst, src, ys, j);
      if AllFit(xs + [b], dst, src) {
        JoinedBlit(Applied(dst, src, ys), src, a, b);
      }
    }
  }

  lemma BatchSnoc(xs: seq<CopyDesc>, c: CopyDesc)
    ensures AllToHost(xs + [c]) == AllToHost(xs) + [ToHost(c)]
    ensures AllToDevice(xs + [c]) == AllToDevice(xs) + [ToDevice(c)]
  {
  }

  lemma EffectSnoc(xs: seq<CopyDesc>, ys: seq<CopyDesc>, c: CopyDesc)
    requires SameEffect(xs, ys)
    ensures SameEffect(xs + [c], ys + [c])
  {
    BatchSnoc(xs, c);
    BatchSnoc(ys, c);
    SameMovesSnoc(AllToHost(xs), AllToHost(ys), ToHost(c));
    SameMovesSnoc(AllToDevice(xs), AllToDevice(ys), ToDevice(c));
  }

  lemma EffectJoin(xs: seq<CopyDesc>, ys: seq<CopyDesc>, a: CopyDesc, b: CopyDesc)
    requires SameEffect(xs, ys + [a]) && Adjacent(a, b)
    ensures SameEffect(xs + [b], ys + [Join(a, b)])
  {
    BatchSnoc(xs, b);
    BatchSnoc(ys, a);
    BatchSnoc(ys, Join(a, b));
    SameMovesJoin(AllToHost(xs), AllToHost(ys), ToHost(a), ToHost(b));
    SameMovesJoin(AllToDevice(xs), AllToDevice(ys), ToDevice(a), ToDevice(b));
  }

  /** The inner loop: extend the run that starts at `i` while the next copy continues it. */
  method GrowRun(copies: seq<CopyDesc>, i: nat, ghost out: seq<CopyDesc>) returns (run: CopyDesc, j: nat)
    requires i < |copies| && SameEffect(copies[..i], out)
    ensures i < j <= |copies| && SameEffect(copies[..j], out + [run])
    ensures run.device == copies[i].device && run.host == copies[i].host
    ensures j < |copies| ==> !Adjacent(run, copies[j])
  {
    run := copies[i];
    j := i + 1;
    EffectSnoc(copies[..i], out, run);
    assert copies[..j] == copies[..i] + [run];
    while j < |copies| && Adjacent(run, copies[j])
      invariant i < j <= |copies|
      invariant run.device == copies[i].device && run.host == copies[i].host
      invariant SameEffect(copies[..j], out + [run])
    {
      EffectJoin(copies[..j], out, run, copies[j]);
      assert copies[..j + 1] == copies[..j] + [copies[j]];
      run := Join(run, copies[j]);
      j := j + 1;
    }
  }

  lemma EffectRefl(xs: seq<CopyDesc>)
    ensures SameEffect(xs, xs)
  {
  }

  /**
   Coalesce runs that are contiguous on both sides. The merged batch has the
   same effect in either direction, and nothing mergeable is left in it.
   */
  method Merge(copies: seq<CopyDesc>) returns (out: seq<CopyDesc>)
    ensures SameEffect(copies, out)
    ensures forall k :: 0 <= k < |out| - 1 ==>
      !(out[k].device + out[k].size == out[k + 1].device && out[k].host + out[k].size == out[k + 1].host)
    ensures |out| <= |copies|
  {
    out := [];
    var i := 0;
    EffectRefl([]);
    assert copies[..0] == [];
    while i < |copies|
      invariant 0 <= i <= |copies| && |out| <= i
      invariant SameEffect(copies[..i], out)
      invariant forall k :: 0 <= k < |out| - 1 ==> !Adjacent(out[k], out[k + 1])
      invariant out != [] && i < |copies| ==> !Adjacent(out[|out| - 1], copies[i])
    {
      var run, j := GrowRun(copies, i, out);
      out := out + [run];
      i := j;
    }
    assert copies[..|copies|] == copies;
  }
}
