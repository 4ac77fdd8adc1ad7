/**
 Copy descriptors (pegaflow-core/src/gpu_worker.rs, `build_copy_descs`): one
 descriptor per GPU segment of every block, pairing device ranges with host
 addresses. The same descriptors serve saves and loads.
 */
module Transfer {
  import opened Prelude
  import opened Blocks
  import opened Memory
  import L = Layout

  /** Host side of a transfer: an image being written, or a slot of a cached block. */
  datatype HostBlock = Owned(owned: RawBlock) | Cached(sealed: SealedBlock, slotId: nat, offset: nat)
  {
    predicate Valid() {
      match this
      case Owned(raw) => raw.segments != []
      case Cached(sealed, slotId, _) => slotId < |sealed.slots| && sealed.slots[slotId].segments != []
    }

    function Raw(): RawBlock
      requires Valid()
    {
      match this
      case Owned(raw) => raw
      case Cached(sealed, slotId, _) => sealed.slots[slotId]
    }

    function HostOffset(): nat {
      match this
      case Owned(_) => 0
      case Cached(_, _, offset) => offset
    }
  }

  datatype TransferBlock = TransferBlock(blockIdx: nat, block: HostBlock)

  datatype LayerTransfer = LayerTransfer(layout: L.Layout, blocks: seq<TransferBlock>)

  /** Sizes of the pieces of one block, in copy order. */
  function PieceSizes(l: L.Layout): seq<nat> {
    if l.IsSplit() then [l.segmentBytes, l.segmentBytes] else [l.BlockBytes()]
  }

  lemma PieceSizesMatch(l: L.Layout, block: nat)
    requires block < l.numBlocks
    ensures |L.PiecesOf(l, block)| == |PieceSizes(l)|
    ensures forall p :: 0 <= p < |PieceSizes(l)| ==> L.PiecesOf(l, block)[p].bytes == PieceSizes(l)[p]
  {
  }

  /**
   Host addresses of the pieces of a block that starts `offset` bytes into
   `raw`. Without a second segment, V follows K directly.
   */
  function HostRanges(raw: RawBlock, offset: nat, sizes: seq<nat>): (r: seq<L.Range>)
    requires raw.segments != [] && 1 <= |sizes| <= 2
    ensures |r| == |sizes| && forall p :: 0 <= p < |r| ==> r[p].bytes == sizes[p]
  {
    var k := raw.segments[0].ptr + offset;
    if |sizes| == 1 then [L.Range(k, sizes[0])]
    else
      var v := if |raw.segments| > 1 then raw.segments[1].ptr + offset else k + sizes[0];
      [L.Range(k, sizes[0]), L.Range(v, sizes[1])]
  }

  /** Descriptors of one block: piece by piece, device range against host range. */
  function BlockDescs(l: L.Layout, b: TransferBlock): (r: seq<CopyDesc>)
    requires b.block.Valid() && b.blockIdx < l.numBlocks
    ensures |r| == |PieceSizes(l)|
    ensures forall p :: 0 <= p < |r| ==> r[p] == PieceDesc(l, b, p)
  {
    PieceSizesMatch(l, b.blockIdx);
    seq(|PieceSizes(l)|, p requires 0 <= p < |PieceSizes(l)| => PieceDesc(l, b, p))
  }

  function PieceDesc(l: L.Layout, b: TransferBlock, p: nat): CopyDesc
    requires b.block.Valid() && b.blockIdx < l.numBlocks && p < |PieceSizes(l)|
  {
    PieceSizesMatch(l, b.blockIdx);
    CopyDesc(L.PiecesOf(l, b.blockIdx)[p].addr,
             HostRanges(b.block.Raw(), b.block.HostOffset(), PieceSizes(l))[p].addr,
             PieceSizes(l)[p])
  }

  predicate InRange(t: LayerTransfer) {
    forall i :: 0 <= i < |t.blocks| ==> t.blocks[i].blockIdx < t.layout.numBlocks
  }

  predicate HostsValid(t: LayerTransfer) {
    forall i :: 0 <= i < |t.blocks| ==> t.blocks[i].block.Valid()
  }

  predicate Ready(ts: seq<LayerTransfer>) {
    forall i :: 0 <= i < |ts| ==> HostsValid(ts[i]) && InRange(ts[i])
  }

  function LayerDescs(t: LayerTransfer): seq<CopyDesc>
    requires HostsValid(t) && InRange(t)
    decreases |t.blocks|
  {
    if t.blocks == [] then []
    else
      var n := |t.blocks| - 1;
      LayerDescs(t.(blocks := t.blocks[..n])) + BlockDescs(t.layout, t.blocks[n])
  }

  function AllDescs(ts: seq<LayerTransfer>): seq<CopyDesc>
    requires Ready(ts)
  {
    if ts == [] then []
    else AllDescs(ts[..|ts| - 1]) + LayerDescs(ts[|ts| - 1])
  }

  function BytesOf(cs: seq<CopyDesc>): nat {
    if cs == [] then 0 else BytesOf(cs[..|cs| - 1]) + cs[|cs| - 1].size
  }

  lemma {:induction false} BytesConcat(xs: seq<CopyDesc>, ys: seq<CopyDesc>)
    ensures BytesOf(xs + ys) == BytesOf(xs) + BytesOf(ys)
  {
    if ys == [] {
      assert xs + ys == xs;
    } else {
      var n := |ys| - 1;
      BytesConcat(xs, ys[..n]);
      assert (xs + ys)[..|xs| + n] == xs + ys[..n];
    }
  }

  function FirstBlocks(t: LayerTransfer, i: nat): LayerTransfer
    requires i <= |t.blocks|
  {
    t.(blocks := t.blocks[..i])
  }

  lemma FirstBlocksReady(t: LayerTransfer, i: nat)
    requires i < |t.blocks| && HostsValid(t) && InRange(FirstBlocks(t, i)) && t.blocks[i].blockIdx < t.layout.numBlocks
    ensures HostsValid(FirstBlocks(t, i)) && HostsValid(FirstBlocks(t, i + 1)) && InRange(FirstBlocks(t, i + 1))
    ensures FirstBlocks(FirstBlocks(t, i + 1), i) == FirstBlocks(t, i)
  {
    assert t.blocks[..i + 1][..i] == t.blocks[..i];
    assert forall k :: 0 <= k < i ==> FirstBlocks(t, i + 1).blocks[k] == FirstBlocks(t, i).blocks[k];
  }

  lemma LayerDescsStep(t: LayerTransfer, i: nat)
    requires i < |t.blocks| && HostsValid(t) && InRange(FirstBlocks(t, i)) && t.blocks[i].blockIdx < t.layout.numBlocks
    ensures HostsValid(FirstBlocks(t, i)) && HostsValid(FirstBlocks(t, i + 1)) && InRange(FirstBlocks(t, i + 1))
    ensures LayerDescs(FirstBlocks(t, i + 1)) == LayerDescs(FirstBlocks(t, i)) + BlockDescs(t.layout, t.blocks[i])
  {
    FirstBlocksReady(t, i);
  }

  /** One block: its descriptors and their bytes, or the range error. */
  method DescribeBlock(l: L.Layout, b: TransferBlock) returns (r: Result<(seq<CopyDesc>, nat), L.LayoutError>)
    requires b.block.Valid()
    ensures r.Ok? <==> b.blockIdx < l.numBlocks
    ensures r.Ok? ==> r.value.0 == BlockDescs(l, b) && r.value.1 == BytesOf(BlockDescs(l, b))
    ensures r.Ok? ==>
      var device, segments, at := l.dataPtr + b.blockIdx * l.blockStride, b.block.Raw().segments, b.block.HostOffset();
      r.value.0 == match l.seg
        case Contiguous => [CopyDesc(device, segments[0].ptr + at, l.segmentBytes * l.segments)]
        case Split(kv) =>
          [CopyDesc(device, segments[0].ptr + at, l.segmentBytes),
           CopyDesc(device + kv,
                    if |segments| > 1 then segments[1].ptr + at else segments[0].ptr + at + l.segmentBytes,
                    l.segmentBytes)]
    ensures r.Ok? ==> r.value.1 == if l.seg.Split? then 2 * l.segmentBytes else l.segmentBytes * l.segments
  {
    var pieces := L.CopiesOf(l, b.blockIdx);
    if pieces.Err? {
      return Err(pieces.error);
    }
    SmallSum(l, b);
    r := Ok((BlockDescs(l, b), CopyBytes(pieces.value)));
  }

  /** The inner loop: one layer's descriptors, or the first block that is out of range. */
  method DescribeLayer(t: LayerTransfer) returns (r: Result<(seq<CopyDesc>, nat), L.LayoutError>)
    requires HostsValid(t)
    ensures r.Ok? <==> InRange(t)
    ensures r.Ok? ==> r.value.0 == LayerDescs(t) && r.value.1 == BytesOf(r.value.0)
  {
    var out: seq<CopyDesc>, bytes := [], 0;
    for i := 0 to |t.blocks|
      invariant HostsValid(FirstBlocks(t, i)) && InRange(FirstBlocks(t, i))
      invariant out == LayerDescs(FirstBlocks(t, i)) && bytes == BytesOf(out)
    {
      var block := DescribeBlock(t.layout, t.blocks[i]);
      if block.Err? {
        return Err(block.error);
      }
      LayerDescsStep(t, i);
      BytesConcat(out, block.value.0);
      out, bytes := out + block.value.0, bytes + block.value.1;
    }
    assert FirstBlocks(t, |t.blocks|) == t by { assert t.blocks[..|t.blocks|] == t.blocks; }
    r := Ok((out, bytes));
  }

  function CopyBytes(c: L.BlockCopies): nat {
    match c
    case Whole(c) => c.bytes
    case KAndV(k, v) => k.bytes + v.bytes
  }

  lemma SmallSum(l: L.Layout, b: TransferBlock)
    requires b.block.Valid() && b.blockIdx < l.numBlocks
    ensures L.CopiesOf(l, b.blockIdx).Ok?
    ensures BytesOf(BlockDescs(l, b)) == CopyBytes(L.CopiesOf(l, b.blockIdx).value)
  {
    var ds := BlockDescs(l, b);
    if l.IsSplit() {
      assert ds[..1] == [ds[0]] && ds[..1][..0] == [];
      assert BytesOf(ds[..1]) == BytesOf([]) + ds[0].size;
    } else {
      assert ds[..0] == [];
    }
  }

  lemma AllDescsSnoc(init: seq<LayerTransfer>, t: LayerTransfer)
    requires Ready(init) && HostsValid(t) && InRange(t)
    ensures Ready(init + [t]) && AllDescs(init + [t]) == AllDescs(init) + LayerDescs(t)
  {
    var ts := init + [t];
    assert ts[..|init|] == init;
    forall i | 0 <= i < |ts| ensures HostsValid(ts[i]) && InRange(ts[i]) {
      if i < |init| { assert ts[i] == init[i]; }
    }
  }

  lemma AllDescsStep(ts: seq<LayerTransfer>, i: nat)
    requires i < |ts| && Ready(ts[..i]) && HostsValid(ts[i]) && InRange(ts[i])
    ensures Ready(ts[..i + 1]) && AllDescs(ts[..i + 1]) == AllDescs(ts[..i]) + LayerDescs(ts[i])
    ensures BytesOf(AllDescs(ts[..i + 1])) == BytesOf(AllDescs(ts[..i])) + BytesOf(LayerDescs(ts[i]))
  {
    assert ts[..i + 1] == ts[..i] + [ts[i]];
    AllDescsSnoc(ts[..i], ts[i]);
    BytesConcat(AllDescs(ts[..i]), LayerDescs(ts[i]));
  }

  /** All descriptors in order and their total size; an error exactly when a block index is out of range. */
  method BuildCopyDescs(ts: seq<LayerTransfer>) returns (r: Result<(seq<CopyDesc>, nat), L.LayoutError>)
    requires forall i :: 0 <= i < |ts| ==> HostsValid(ts[i])
    ensures r.Ok? <==> Ready(ts)
    ensures r.Ok? ==> r.value.0 == AllDescs(ts) && r.value.1 == BytesOf(AllDescs(ts))
  {
    var copies: seq<CopyDesc>, total := [], 0;
    for i := 0 to |ts|
      invariant Ready(ts[..i]) && copies == AllDescs(ts[..i]) && total == BytesOf(AllDescs(ts[..i]))
    {
      var layer := DescribeLayer(ts[i]);
      if layer.Err? {
        return Err(layer.error);
      }
      AllDescsStep(ts, i);
      copies, total := copies + layer.value.0, total + layer.value.1;
    }
    assert ts[..|ts|] == ts;
    r := Ok((copies, total));
  }

  // ---------------------------------------------------------------------------
  // Descriptors by (layer, block, piece)
  // ---------------------------------------------------------------------------

  predicate IsPiece(ts: seq<LayerTransfer>, t: nat, b: nat, p: nat) {
    t < |ts| && b < |ts[t].blocks| && p < |PieceSizes(ts[t].layout)|
  }

  function DescAt(ts: seq<LayerTransfer>, t: nat, b: nat, p: nat): CopyDesc
    requires Ready(ts) && IsPiece(ts, t, b, p)
  {
    PieceDesc(ts[t].layout, ts[t].blocks[b], p)
  }

  lemma {:induction false} LayerMembers(t: LayerTransfer, i: nat) returns (b: nat, p: nat)
    requires HostsValid(t) && InRange(t) && i < |LayerDescs(t)|
    ensures b < |t.blocks| && p < |PieceSizes(t.layout)| && LayerDescs(t)[i] == PieceDesc(t.layout, t.blocks[b], p)
    decreases |t.blocks|
  {
    var n := |t.blocks| - 1;
    var init := t.(blocks := t.blocks[..n]);
    if i < |LayerDescs(init)| {
      b, p := LayerMembers(init, i);
    } else {
      b, p := n, i - |LayerDescs(init)|;
    }
  }

  /** Every descriptor of the batch belongs to some piece. */
  lemma {:induction false} DescIsPiece(ts: seq<LayerTransfer>, i: nat) returns (t: nat, b: nat, p: nat)
    requires Ready(ts) && i < |AllDescs(ts)|
    ensures IsPiece(ts, t, b, p) && AllDescs(ts)[i] == DescAt(ts, t, b, p)
  {
    var n := |ts| - 1;
    if i < |AllDescs(ts[..n])| {
      t, b, p := DescIsPiece(ts[..n], i);
    } else {
      t := n;
      b, p := LayerMembers(ts[n], i - |AllDescs(ts[..n])|);
    }
  }

  lemma {:induction false} PieceInLayer(t: LayerTransfer, b: nat, p: nat)
    requires HostsValid(t) && InRange(t) && b < |t.blocks| && p < |PieceSizes(t.layout)|
    ensures PieceDesc(t.layout, t.blocks[b], p) in LayerDescs(t)
    decreases |t.blocks|
  {
    var n := |t.blocks| - 1;
    if b < n {
      PieceInLayer(FirstBlocks(t, n), b, p);
    } else {
      assert BlockDescs(t.layout, t.blocks[b])[p] in BlockDescs(t.layout, t.blocks[b]);
    }
  }

  lemma {:induction false} PieceInBatch(ts: seq<LayerTransfer>, t: nat, b: nat, p: nat)
    requires Ready(ts) && IsPiece(ts, t, b, p)
    ensures DescAt(ts, t, b, p) in AllDescs(ts)
  {
    var n := |ts| - 1;
    if t < n {
      PieceInBatch(ts[..n], t, b, p);
    } else {
      PieceInLayer(ts[n], b, p);
    }
  }

  /** Every piece has a descriptor in the batch. */
  lemma PieceHasDesc(ts: seq<LayerTransfer>, t: nat, b: nat, p: nat) returns (i: nat)
    requires Ready(ts) && IsPiece(ts, t, b, p)
    ensures i < |AllDescs(ts)| && AllDescs(ts)[i] == DescAt(ts, t, b, p)
  {
    PieceInBatch(ts, t, b, p);
    i :| 0 <= i < |AllDescs(ts)| && AllDescs(ts)[i] == DescAt(ts, t, b, p);
  }

  // ---------------------------------------------------------------------------
  // Images
  // ---------------------------------------------------------------------------

  predicate RangesFit(m: Mem, rs: seq<L.Range>) {
    forall p :: 0 <= p < |rs| ==> rs[p].addr + rs[p].bytes <= |m|
  }

  /** The bytes at a list of ranges, one after another. */
  function Gather(m: Mem, rs: seq<L.Range>): Mem
    requires RangesFit(m, rs)
  {
    if rs == [] then [] else Slice(m, rs[0].addr, rs[0].bytes) + Gather(m, rs[1..])
  }

  /** Equal pieces make equal images. */
  lemma {:induction false} GatherEqual(m: Mem, rs: seq<L.Range>, m': Mem, rs': seq<L.Range>)
    requires RangesFit(m, rs) && RangesFit(m', rs') && |rs| == |rs'|
    requires forall p :: 0 <= p < |rs| ==> Slice(m, rs[p].addr, rs[p].bytes) == Slice(m', rs'[p].addr, rs'[p].bytes)
    ensures Gather(m, rs) == Gather(m', rs')
  {
    if rs != [] {
      GatherEqual(m, rs[1..], m', rs'[1..]);
    }
  }

  /** Memories that agree on the ranges hold the same image. */
  lemma GatherFrame(m: Mem, m': Mem, rs: seq<L.Range>)
    requires RangesFit(m, rs) && |m| == |m'|
    requires forall p, a :: 0 <= p < |rs| && rs[p].addr <= a < rs[p].addr + rs[p].bytes ==> m[a] == m'[a]
    ensures Gather(m, rs) == Gather(m', rs)
  {
    forall p | 0 <= p < |rs|
      ensures Slice(m, rs[p].addr, rs[p].bytes) == Slice(m', rs[p].addr, rs[p].bytes)
    {
      assert forall a :: rs[p].addr <= a < rs[p].addr + rs[p].bytes ==> m[a] == m'[a];
    }
    GatherEqual(m, rs, m', rs);
  }

  /** The image of a block on the GPU. */
  function GpuImage(gpu: Mem, l: L.Layout, block: nat): Mem
    requires RangesFit(gpu, L.PiecesOf(l, block))
  {
    Gather(gpu, L.PiecesOf(l, block))
  }

  /** The image of a block in host memory. */
  function HostImage(host: Mem, raw: RawBlock, offset: nat, sizes: seq<nat>): Mem
    requires raw.segments != [] && 1 <= |sizes| <= 2
    requires RangesFit(host, HostRanges(raw, offset, sizes))
  {
    Gather(host, HostRanges(raw, offset, sizes))
  }

  // ---------------------------------------------------------------------------
  // Running a batch of transfers
  // ---------------------------------------------------------------------------

  predicate DescFits(c: CopyDesc, host: Mem, gpu: Mem) {
    c.host + c.size <= |host| && c.device + c.size <= |gpu|
  }

  ghost predicate DescsFit(ts: seq<LayerTransfer>, host: Mem, gpu: Mem)
    requires Ready(ts)
  {
    forall t: nat, b: nat, p: nat :: IsPiece(ts, t, b, p) ==> DescFits(DescAt(ts, t, b, p), host, gpu)
  }

  lemma FitBothWays(ts: seq<LayerTransfer>, host: Mem, gpu: Mem)
    requires Ready(ts) && DescsFit(ts, host, gpu)
    ensures AllFit(AllToHost(AllDescs(ts)), host, gpu)
    ensures AllFit(AllToDevice(AllDescs(ts)), gpu, host)
  {
    forall i | 0 <= i < |AllDescs(ts)|
      ensures DescFits(AllDescs(ts)[i], host, gpu)
    {
      var t, b, p := DescIsPiece(ts, i);
      assert IsPiece(ts, t, b, p);
    }
  }

  /** A piece whose two sides hold the same bytes. */
  predicate PieceSynced(host: Mem, gpu: Mem, c: CopyDesc)
    requires DescFits(c, host, gpu)
  {
    Slice(host, c.host, c.size) == Slice(gpu, c.device, c.size)
  }

  /** If all pieces of a block are synced, its two images are equal. */
  lemma BlockSynced(ts: seq<LayerTransfer>, host: Mem, gpu: Mem, t: nat, b: nat)
    requires Ready(ts) && DescsFit(ts, host, gpu) && t < |ts| && b < |ts[t].blocks|
    requires forall p: nat :: IsPiece(ts, t, b, p) ==> PieceSynced(host, gpu, DescAt(ts, t, b, p))
    ensures var l, blk := ts[t].layout, ts[t].blocks[b];
            && RangesFit(gpu, L.PiecesOf(l, blk.blockIdx))
            && RangesFit(host, HostRanges(blk.block.Raw(), blk.block.HostOffset(), PieceSizes(l)))
            && HostImage(host, blk.block.Raw(), blk.block.HostOffset(), PieceSizes(l)) == GpuImage(gpu, l, blk.blockIdx)
  {
    var l, blk := ts[t].layout, ts[t].blocks[b];
    PieceSizesMatch(l, blk.blockIdx);
    var on, off := L.PiecesOf(l, blk.blockIdx), HostRanges(blk.block.Raw(), blk.block.HostOffset(), PieceSizes(l));
    forall p: nat | p < |PieceSizes(l)|
      ensures on[p].addr + on[p].bytes <= |gpu| && off[p].addr + off[p].bytes <= |host|
      ensures Slice(host, off[p].addr, off[p].bytes) == Slice(gpu, on[p].addr, on[p].bytes)
    {
      assert IsPiece(ts, t, b, p);
      assert DescFits(DescAt(ts, t, b, p), host, gpu) && PieceSynced(host, gpu, DescAt(ts, t, b, p));
    }
    GatherEqual(host, off, gpu, on);
  }

  /** Device-to-host moves that meet at a host byte bring the same device byte. */
  ghost predicate SaveAgrees(ts: seq<LayerTransfer>, host: Mem, gpu: Mem)
    requires Ready(ts) && DescsFit(ts, host, gpu)
  {
    forall t: nat, b: nat, p: nat, t': nat, b': nat, p': nat, a: nat
      {:trigger Covers(ToHost(DescAt(ts, t, b, p)), a), Covers(ToHost(DescAt(ts, t', b', p')), a)} ::
      IsPiece(ts, t, b, p) && IsPiece(ts, t', b', p')
      && Covers(ToHost(DescAt(ts, t, b, p)), a) && Covers(ToHost(DescAt(ts, t', b', p')), a) ==>
        Delivered(gpu, ToHost(DescAt(ts, t, b, p)), a) == Delivered(gpu, ToHost(DescAt(ts, t', b', p')), a)
  }

  /** Host-to-device moves that meet at a device byte bring the same host byte. */
  ghost predicate LoadAgrees(ts: seq<LayerTransfer>, host: Mem, gpu: Mem)
    requires Ready(ts) && DescsFit(ts, host, gpu)
  {
    forall t: nat, b: nat, p: nat, t': nat, b': nat, p': nat, a: nat
      {:trigger Covers(ToDevice(DescAt(ts, t, b, p)), a), Covers(ToDevice(DescAt(ts, t', b', p')), a)} ::
      IsPiece(ts, t, b, p) && IsPiece(ts, t', b', p')
      && Covers(ToDevice(DescAt(ts, t, b, p)), a) && Covers(ToDevice(DescAt(ts, t', b', p')), a) ==>
        Delivered(host, ToDevice(DescAt(ts, t, b, p)), a) == Delivered(host, ToDevice(DescAt(ts, t', b', p')), a)
  }

  lemma SaveMovesAgree(ts: seq<LayerTransfer>, host: Mem, gpu: Mem)
    requires Ready(ts) && DescsFit(ts, host, gpu) && SaveAgrees(ts, host, gpu)
    ensures AllFit(AllToHost(AllDescs(ts)), host, gpu) && Agreeing(gpu, AllToHost(AllDescs(ts)))
  {
    FitBothWays(ts, host, gpu);
    var ms := AllToHost(AllDescs(ts));
    forall i, j, a: nat | 0 <= i < j < |ms| && Covers(ms[i], a) && Covers(ms[j], a)
      ensures Delivered(gpu, ms[i], a) == Delivered(gpu, ms[j], a)
    {
      var t, b, p := DescIsPiece(ts, i);
      var t', b', p' := DescIsPiece(ts, j);
      assert Covers(ToHost(DescAt(ts, t, b, p)), a) && Covers(ToHost(DescAt(ts, t', b', p')), a);
    }
  }

  lemma LoadMovesAgree(ts: seq<LayerTransfer>, host: Mem, gpu: Mem)
    requires Ready(ts) && DescsFit(ts, host, gpu) && LoadAgrees(ts, host, gpu)
    ensures AllFit(AllToDevice(AllDescs(ts)), gpu, host) && Agreeing(host, AllToDevice(AllDescs(ts)))
  {
    FitBothWays(ts, host, gpu);
    var ms := AllToDevice(AllDescs(ts));
    forall i, j, a: nat | 0 <= i < j < |ms| && Covers(ms[i], a) && Covers(ms[j], a)
      ensures Delivered(host, ms[i], a) == Delivered(host, ms[j], a)
    {
      var t, b, p := DescIsPiece(ts, i);
      var t', b', p' := DescIsPiece(ts, j);
      assert Covers(ToDevice(DescAt(ts, t, b, p)), a) && Covers(ToDevice(DescAt(ts, t', b', p')), a);
    }
  }

  /** After a save batch, the host image of every block equals its GPU image. */
  lemma SaveImages(ts: seq<LayerTransfer>, host: Mem, gpu: Mem, t: nat, b: nat)
    requires Ready(ts) && DescsFit(ts, host, gpu) && SaveAgrees(ts, host, gpu) && t < |ts| && b < |ts[t].blocks|
    ensures AllFit(AllToHost(AllDescs(ts)), host, gpu)
    ensures var host' := Applied(host, gpu, AllToHost(AllDescs(ts)));
            var l, blk := ts[t].layout, ts[t].blocks[b];
            && RangesFit(gpu, L.PiecesOf(l, blk.blockIdx))
            && RangesFit(host', HostRanges(blk.block.Raw(), blk.block.HostOffset(), PieceSizes(l)))
            && HostImage(host', blk.block.Raw(), blk.block.HostOffset(),
                         PieceSizes(l)) == GpuImage(gpu, l, blk.blockIdx)
  {
    SaveMovesAgree(ts, host, gpu);
    var ms := AllToHost(AllDescs(ts));
    var host' := Applied(host, gpu, ms);
    assert DescsFit(ts, host', gpu) by {
      assert forall t: nat, b: nat, p: nat :: IsPiece(ts, t, b, p) ==> DescFits(DescAt(ts, t, b, p), host, gpu);
    }
    forall p: nat | IsPiece(ts, t, b, p)
      ensures PieceSynced(host', gpu, DescAt(ts, t, b, p))
    {
      var i := PieceHasDesc(ts, t, b, p);
      MoveSynced(host, gpu, ms, i);
    }
    BlockSynced(ts, host', gpu, t, b);
  }

  /** After a load batch, the GPU image of every block equals its host image. */
  lemma LoadImages(ts: seq<LayerTransfer>, host: Mem, gpu: Mem, t: nat, b: nat)
    requires Ready(ts) && DescsFit(ts, host, gpu) && LoadAgrees(ts, host, gpu) && t < |ts| && b < |ts[t].blocks|
    ensures AllFit(AllToDevice(AllDescs(ts)), gpu, host)
    ensures var gpu' := Applied(gpu, host, AllToDevice(AllDescs(ts)));
            var l, blk := ts[t].layout, ts[t].blocks[b];
            && RangesFit(gpu', L.PiecesOf(l, blk.blockIdx))
            && RangesFit(host, HostRanges(blk.block.Raw(), blk.block.HostOffset(), PieceSizes(l)))
            && HostImage(host, blk.block.Raw(), blk.block.HostOffset(),
                         PieceSizes(l)) == GpuImage(gpu', l, blk.blockIdx)
  {
    LoadMovesAgree(ts, host, gpu);
    var ms := AllToDevice(AllDescs(ts));
    var gpu' := Applied(gpu, host, ms);
    assert DescsFit(ts, host, gpu') by {
      assert forall t: nat, b: nat, p: nat :: IsPiece(ts, t, b, p) ==> DescFits(DescAt(ts, t, b, p), host, gpu);
    }
    forall p: nat | IsPiece(ts, t, b, p)
      ensures PieceSynced(host, gpu', DescAt(ts, t, b, p))
    {
      var i := PieceHasDesc(ts, t, b, p);
      MoveSynced(gpu, host, ms, i);
    }
    BlockSynced(ts, host, gpu', t, b);
  }

  /** Bytes outside every written range keep their value. */
  lemma SaveFrame(ts: seq<LayerTransfer>, host: Mem, gpu: Mem, a: nat)
    requires Ready(ts) && DescsFit(ts, host, gpu) && a < |host|
    requires forall t: nat, b: nat, p: nat :: IsPiece(ts, t, b, p) ==> !Covers(ToHost(DescAt(ts, t, b, p)), a)
    ensures AllFit(AllToHost(AllDescs(ts)), host, gpu) && Applied(host, gpu, AllToHost(AllDescs(ts)))[a] == host[a]
  {
    FitBothWays(ts, host, gpu);
    var ms := AllToHost(AllDescs(ts));
    forall i | 0 <= i < |ms| ensures !Covers(ms[i], a) {
      var t, b, p := DescIsPiece(ts, i);
      assert IsPiece(ts, t, b, p);
    }
    UncoveredKept(host, gpu, ms, a);
  }

  lemma LoadFrame(ts: seq<LayerTransfer>, host: Mem, gpu: Mem, a: nat)
    requires Ready(ts) && DescsFit(ts, host, gpu) && a < |gpu|
    requires forall t: nat, b: nat, p: nat :: IsPiece(ts, t, b, p) ==> !Covers(ToDevice(DescAt(ts, t, b, p)), a)
    ensures AllFit(AllToDevice(AllDescs(ts)), gpu, host) && Applied(gpu, host, AllToDevice(AllDescs(ts)))[a] == gpu[a]
  {
    FitBothWays(ts, host, gpu);
    var ms := AllToDevice(AllDescs(ts));
    forall i | 0 <= i < |ms| ensures !Covers(ms[i], a) {
      var t, b, p := DescIsPiece(ts, i);
      assert IsPiece(ts, t, b, p);
    }
    UncoveredKept(gpu, host, ms, a);
  }
}
