/**
 Per-layer KV cache layout (pegaflow-core/src/layout.rs).

 Every supported layout is one affine formula,
 `addr = data_ptr + block * block_stride + segment * kv_stride`. Construction
 validates it once; the copy paths then trust it. The main results say that the
 validation is exact: a layout is accepted precisely when every segment lies in
 the registered region and no two segments share a byte.
 */
module Layout {
  import opened Prelude

  datatype SegmentLayout = Contiguous | Split(kvStride: usize)

  datatype Range = Range(addr: nat, bytes: nat)

  datatype BlockCopies = Whole(c: Range) | KAndV(k: Range, v: Range)

  datatype LayoutError =
    | NullBase
    | EmptyRegion
    | ZeroDimension
    | AddressOverflow
    | SizeOverflow
    | KvStrideZero
    | SegmentsOverlap
    | UnsupportedSegments
    | StrideTooSmall
    | RegionTooSmall
    | BlockOutOfRange

  datatype Layout = Layout(
    dataPtr: usize,
    sizeBytes: usize,
    numBlocks: usize,
    blockStride: usize,
    segmentBytes: usize,
    segments: usize,
    paddedSegmentBytes: nat,
    seg: SegmentLayout)
  {
    function BlockBytes(): nat { segmentBytes * segments }

    function PaddedBlockBytes(): nat { paddedSegmentBytes * segments }

    predicate IsSplit() { seg.Split? }

    /** Smallest stride that keeps consecutive blocks apart. */
    function MinStride(): nat {
      if seg.Contiguous? then BlockBytes() else segmentBytes
    }

    /** Byte distance between a block's segments. */
    function KvStride(): nat {
      match seg
      case Contiguous => segmentBytes
      case Split(kv) => kv
    }
  }

  // ---------------------------------------------------------------------------
  // The code
  // ---------------------------------------------------------------------------

  function New(dataPtr: usize, sizeBytes: usize, numBlocks: usize, segmentBytes: usize,
               kvStride: usize, segments: usize): (r: Result<Layout, LayoutError>)
  {
    if dataPtr == 0 then Err(NullBase)
    else if sizeBytes == 0 then Err(EmptyRegion)
    else if segmentBytes == 0 || numBlocks == 0 || segments == 0 then Err(ZeroDimension)
    else if CheckedAdd(dataPtr, sizeBytes).None? then Err(AddressOverflow)
    else match CheckedMul(segmentBytes, segments)
      case None => Err(SizeOverflow)
      case Some(blockBytes) =>
        match ClassifySegments(segmentBytes, kvStride, segments)
        case Err(e) => Err(e)
        case Ok(seg) =>
          var stride := if seg.Contiguous? then blockBytes else segmentBytes;
          var l := Layout(dataPtr, sizeBytes, numBlocks, stride, segmentBytes, segments, segmentBytes, seg);
          match CheckBounds(l)
          case Err(e) => Err(e)
          case Ok(_) => Ok(l)
  }

  function ClassifySegments(segmentBytes: usize, kvStride: usize,
                            segments: usize): (r: Result<SegmentLayout, LayoutError>) {
    if segments == 1 then Ok(Contiguous)
    else if kvStride == 0 then Err(KvStrideZero)
    else if kvStride < segmentBytes then Err(SegmentsOverlap)
    else if kvStride == segmentBytes then Ok(Contiguous)
    else if segments == 2 then Ok(Split(kvStride))
    else Err(UnsupportedSegments)
  }

  function WithBlockStride(l: Layout, stride: usize): (r: Result<Layout, LayoutError>)
    requires Shaped(l)
  {
    if stride < l.MinStride() then Err(StrideTooSmall)
    else
      var l' := l.(blockStride := stride);
      match CheckBounds(l')
      case Err(e) => Err(e)
      case Ok(_) => Ok(l')
  }

  /** Smallest multiple of `alignment` that is at least `n`. */
  function NextMultipleOf(n: nat, alignment: nat): (r: nat)
    requires alignment > 0
  {
    if n % alignment == 0 then n else n + (alignment - n % alignment)
  }

  function WithSsdPadding(l: Layout, alignment: nat): Layout
    requires alignment > 0
  {
    l.(paddedSegmentBytes := NextMultipleOf(l.segmentBytes, alignment))
  }

  function CheckBounds(l: Layout): (r: Result<(), LayoutError>)
    requires Shaped(l)
  {
    match l.seg
    case Contiguous =>
      if l.blockStride < l.BlockBytes() then Err(StrideTooSmall)
      else (
        match SpanOf(l, l.BlockBytes())
        case None => Err(SizeOverflow)
        case Some(end) => if end > l.sizeBytes then Err(RegionTooSmall) else Ok(())
      )
    case Split(kv) =>
      if l.blockStride < l.segmentBytes then Err(StrideTooSmall)
      else
        match CheckSplitSegmentsDisjoint(l, kv)
        case Err(e) => Err(e)
        case Ok(_) =>
          match SpanOf(l, l.segmentBytes)
          case None => Err(SizeOverflow)
          case Some(lastEnd) =>
            match CheckedAdd(kv, lastEnd)
            case None => Err(SizeOverflow)
            case Some(end) => if end > l.sizeBytes then Err(RegionTooSmall) else Ok(())
  }

  /** End of the last block when each block occupies `bytes`, with checked arithmetic. */
  function SpanOf(l: Layout, bytes: usize): Option<usize>
    requires l.numBlocks > 0
  {
    match CheckedMul(l.numBlocks - 1, l.blockStride)
    case None => None
    case Some(offset) => CheckedAdd(offset, bytes)
  }

  function CheckSplitSegmentsDisjoint(l: Layout, kv: usize): (r: Result<(), LayoutError>)
    requires l.numBlocks > 0 && l.blockStride > 0
  {
    var nearest := BlocksSpanned(l, kv);
    match CheckDistance(l, kv, nearest)
    case Err(e) => Err(e)
    case Ok(_) => CheckDistance(l, kv, SaturatingAdd(nearest, 1))
  }

  /** How many whole block strides fit into the distance from K to V. */
  function BlocksSpanned(l: Layout, kv: usize): (n: usize)
    requires l.blockStride > 0
    ensures n * l.blockStride <= kv < n * l.blockStride + l.blockStride
  {
    QuotientBounds(kv, l.blockStride);
    kv / l.blockStride
  }

  lemma QuotientBounds(a: nat, b: nat)
    requires b > 0
    ensures (a / b) * b <= a < (a / b) * b + b
    ensures a / b <= a
  {
    var q, r := a / b, a % b;
    assert a == q * b + r;
    MulMonotone(1, b, q);
  }

  /** One turn of the two-candidate loop. */
  function CheckDistance(l: Layout, kv: usize, distance: usize): (r: Result<(), LayoutError>)
    requires l.numBlocks > 0
  {
    if distance == 0 || distance > l.numBlocks - 1 then Ok(())
    else
      match CheckedMul(distance, l.blockStride)
      case None => Err(SizeOverflow)
      case Some(bytes) =>
        if AbsDiff(kv, bytes) < l.segmentBytes then Err(SegmentsOverlap) else Ok(())
  }

  function CopiesOf(l: Layout, block: nat): (r: Result<BlockCopies, LayoutError>) {
    if block >= l.numBlocks then Err(BlockOutOfRange)
    else
      var base := l.dataPtr + block * l.blockStride;
      match l.seg
      case Contiguous => Ok(Whole(Range(base, l.BlockBytes())))
      case Split(kv) => Ok(KAndV(Range(base, l.segmentBytes), Range(base + kv, l.segmentBytes)))
  }

  // ---------------------------------------------------------------------------
  // Reference meaning: the affine formula
  // ---------------------------------------------------------------------------

  /** What holds of every value the constructor hands to the bounds check. */
  predicate Shaped(l: Layout) {
    && l.dataPtr > 0 && l.sizeBytes > 0 && l.numBlocks > 0 && l.segmentBytes > 0 && l.segments > 0
    && l.dataPtr + l.sizeBytes <= U64_MAX
    && l.BlockBytes() <= U64_MAX
    && l.blockStride > 0
    && (l.seg.Split? ==> l.segments == 2 && l.segmentBytes < l.seg.kvStride)
  }

  /** A validated layout. */
  predicate Accepted(l: Layout) {
    && Shaped(l)
    && CheckBounds(l).Ok?
    && l.segmentBytes <= l.paddedSegmentBytes
  }

  function Offset(l: Layout, block: nat, segment: nat): nat {
    block * l.blockStride + segment * l.KvStride()
  }

  function SegmentRange(l: Layout, block: nat, segment: nat): Range {
    Range(l.dataPtr + Offset(l, block, segment), l.segmentBytes)
  }

  predicate Overlap(a: Range, b: Range) {
    a.addr < b.addr + b.bytes && b.addr < a.addr + a.bytes
  }

  predicate Within(a: Range, lo: nat, hi: nat) {
    lo <= a.addr && a.addr + a.bytes <= hi
  }

  predicate IsSegment(l: Layout, block: nat, segment: nat) {
    block < l.numBlocks && segment < l.segments
  }

  ghost predicate AllFit(l: Layout) {
    forall b: nat, s: nat :: IsSegment(l, b, s) ==>
      Within(SegmentRange(l, b, s), l.dataPtr, l.dataPtr + l.sizeBytes)
  }

  ghost predicate AllDisjoint(l: Layout) {
    forall b: nat, s: nat, b': nat, s': nat ::
      IsSegment(l, b, s) && IsSegment(l, b', s') && (b, s) != (b', s') ==>
        !Overlap(SegmentRange(l, b, s), SegmentRange(l, b', s'))
  }

  // ---------------------------------------------------------------------------
  // Two distances suffice
  // ---------------------------------------------------------------------------

  ghost predicate DistanceClear(l: Layout, kv: nat, d: nat) {
    kv + l.segmentBytes <= d * l.blockStride || d * l.blockStride + l.segmentBytes <= kv
  }

  /** Only the multiples of the stride next to `kv` can come within a segment of it. */
  lemma FarMultiples(kv: nat, stride: nat, segment: nat, n: nat, d: nat)
    requires segment <= stride && n * stride <= kv < n * stride + stride
    requires d != n && d != n + 1
    ensures kv + segment <= d * stride || d * stride + segment <= kv
  {
    if d < n {
      MulMonotone(d + 1, n, stride);
      assert (d + 1) * stride == d * stride + stride;
    } else {
      MulMonotone(n + 2, d, stride);
      assert (n + 2) * stride == n * stride + stride + stride;
    }
  }

  /** One probe decides one distance. */
  lemma ProbeDecides(l: Layout, kv: usize, d: usize)
    requires l.numBlocks > 0 && l.segmentBytes <= kv
    requires (l.numBlocks - 1) * l.blockStride <= U64_MAX
    ensures CheckDistance(l, kv, d).Ok? <==> (d < l.numBlocks ==> DistanceClear(l, kv, d))
  {
    if d < l.numBlocks {
      MulMonotone(d, l.numBlocks - 1, l.blockStride);
    }
  }

  lemma FarDistanceClear(l: Layout, kv: usize, d: nat)
    requires l.blockStride > 0 && l.segmentBytes <= l.blockStride
    requires d != BlocksSpanned(l, kv) && d != BlocksSpanned(l, kv) + 1
    ensures DistanceClear(l, kv, d)
  {
    FarMultiples(kv, l.blockStride, l.segmentBytes, BlocksSpanned(l, kv), d);
  }

  /** The two probes decide the question for every distance up to the last block. */
  lemma TwoDistancesDecide(l: Layout, kv: usize)
    requires l.numBlocks > 0 && l.blockStride > 0
    requires l.segmentBytes <= l.blockStride && l.segmentBytes <= kv
    requires (l.numBlocks - 1) * l.blockStride <= U64_MAX
    ensures CheckSplitSegmentsDisjoint(l, kv).Ok?
       <==> forall d: nat :: d < l.numBlocks ==> DistanceClear(l, kv, d)
  {
    var n: nat := BlocksSpanned(l, kv);
    ProbeDecides(l, kv, n);
    ProbeDecides(l, kv, SaturatingAdd(n, 1));
    forall d: nat | d < l.numBlocks && d != n && d != n + 1
      ensures DistanceClear(l, kv, d)
    {
      FarDistanceClear(l, kv, d);
    }
  }

  // ---------------------------------------------------------------------------
  // The bounds check is exact
  // ---------------------------------------------------------------------------

  /** Stride arithmetic: the gap between two blocks is at least one stride. */
  lemma BlockGap(l: Layout, b: nat, b': nat)
    requires b < b'
    ensures b * l.blockStride + l.blockStride <= b' * l.blockStride
  {
    MulMonotone(b + 1, b', l.blockStride);
  }

  lemma SegmentOffsetInBlock(l: Layout, s: nat)
    requires Shaped(l) && l.seg.Contiguous? && s < l.segments
    ensures s * l.segmentBytes + l.segmentBytes <= l.BlockBytes()
  {
    MulMonotone(s + 1, l.segments, l.segmentBytes);
  }

  lemma FitExactContiguous(l: Layout)
    requires Shaped(l) && l.seg.Contiguous?
    ensures AllFit(l) <==> (l.numBlocks - 1) * l.blockStride + l.BlockBytes() <= l.sizeBytes
  {
    var span := (l.numBlocks - 1) * l.blockStride + l.BlockBytes();
    if span <= l.sizeBytes {
      forall b: nat, s: nat | IsSegment(l, b, s)
        ensures Within(SegmentRange(l, b, s), l.dataPtr, l.dataPtr + l.sizeBytes)
      {
        MulMonotone(b, l.numBlocks - 1, l.blockStride);
        SegmentOffsetInBlock(l, s);
      }
    } else {
      var b, s := l.numBlocks - 1, l.segments - 1;
      assert s * l.segmentBytes + l.segmentBytes == l.BlockBytes();
      assert IsSegment(l, b, s) && !Within(SegmentRange(l, b, s), l.dataPtr, l.dataPtr + l.sizeBytes);
    }
  }

  lemma FitExactSplit(l: Layout)
    requires Shaped(l) && l.seg.Split?
    ensures AllFit(l) <==> l.seg.kvStride + ((l.numBlocks - 1) * l.blockStride + l.segmentBytes) <= l.sizeBytes
  {
    var span := l.seg.kvStride + ((l.numBlocks - 1) * l.blockStride + l.segmentBytes);
    if span <= l.sizeBytes {
      forall b: nat, s: nat | IsSegment(l, b, s)
        ensures Within(SegmentRange(l, b, s), l.dataPtr, l.dataPtr + l.sizeBytes)
      {
        MulMonotone(b, l.numBlocks - 1, l.blockStride);
      }
    } else {
      assert IsSegment(l, l.numBlocks - 1, 1);
      assert !Within(SegmentRange(l, l.numBlocks - 1, 1), l.dataPtr, l.dataPtr + l.sizeBytes);
    }
  }

  /** In a contiguous layout segments follow one another in (block, segment) order. */
  lemma ContiguousInOrder(l: Layout, b: nat, s: nat, b': nat, s': nat)
    requires Shaped(l) && l.seg.Contiguous? && l.BlockBytes() <= l.blockStride
    requires s < l.segments && s' < l.segments
    requires b < b' || (b == b' && s < s')
    ensures Offset(l, b, s) + l.segmentBytes <= Offset(l, b', s')
  {
    if b < b' {
      SegmentOffsetInBlock(l, s);
      BlockGap(l, b, b');
    } else {
      MulMonotone(s + 1, s', l.segmentBytes);
    }
  }

  lemma ContiguousDisjoint(l: Layout)
    requires Shaped(l) && l.seg.Contiguous? && l.BlockBytes() <= l.blockStride
    ensures AllDisjoint(l)
  {
    forall b: nat, s: nat, b': nat, s': nat
      | IsSegment(l, b, s) && IsSegment(l, b', s') && (b, s) != (b', s')
      ensures !Overlap(SegmentRange(l, b, s), SegmentRange(l, b', s'))
    {
      if b < b' || (b == b' && s < s') {
        ContiguousInOrder(l, b, s, b', s');
      } else {
        ContiguousInOrder(l, b', s', b, s);
      }
    }
  }

  /** Two segments of the same kind never meet once the stride covers a segment. */
  lemma SameKindApart(l: Layout, b: nat, b': nat, s: nat)
    requires l.segmentBytes <= l.blockStride && b != b'
    ensures !Overlap(SegmentRange(l, b, s), SegmentRange(l, b', s))
  {
    if b < b' { BlockGap(l, b, b'); } else { BlockGap(l, b', b); }
  }

  /** K of one block against V of another reduces to one distance. */
  lemma CrossKindApart(l: Layout, b: nat, b': nat)
    requires l.seg.Split?
    ensures b <= b' ==>
      Overlap(SegmentRange(l, b', 0), SegmentRange(l, b, 1)) == !DistanceClear(l, l.seg.kvStride, b' - b)
    ensures b' < b && l.segmentBytes <= l.seg.kvStride ==> !Overlap(SegmentRange(l, b', 0), SegmentRange(l, b, 1))
  {
    if b <= b' {
      assert b' * l.blockStride == b * l.blockStride + (b' - b) * l.blockStride;
    } else {
      MulMonotone(b', b, l.blockStride);
    }
  }

  lemma SplitDisjointExact(l: Layout)
    requires Shaped(l) && l.seg.Split? && l.segmentBytes <= l.blockStride
    ensures AllDisjoint(l) <==> forall d: nat :: d < l.numBlocks ==> DistanceClear(l, l.seg.kvStride, d)
  {
    var kv := l.seg.kvStride;
    if forall d: nat :: d < l.numBlocks ==> DistanceClear(l, kv, d) {
      forall b: nat, s: nat, b': nat, s': nat
        | IsSegment(l, b, s) && IsSegment(l, b', s') && (b, s) != (b', s')
        ensures !Overlap(SegmentRange(l, b, s), SegmentRange(l, b', s'))
      {
        if s == s' { SameKindApart(l, b, b', s); }
        else if s == 0 { CrossKindApart(l, b', b); }
        else { CrossKindApart(l, b, b'); }
      }
    }
    if AllDisjoint(l) {
      forall d: nat | d < l.numBlocks
        ensures DistanceClear(l, kv, d)
      {
        assert IsSegment(l, d, 0) && IsSegment(l, 0, 1);
        CrossKindApart(l, 0, d);
      }
    }
  }

  /**
   The bounds check accepts exactly the layouts whose stride covers a block,
   whose segments all lie in the region, and of which no two share a byte.
   */
  lemma BoundsCheckExact(l: Layout)
    requires Shaped(l)
    ensures CheckBounds(l).Ok? <==> l.MinStride() <= l.blockStride && AllFit(l) && AllDisjoint(l)
  {
    if l.blockStride < l.MinStride() {
      return;
    }
    if l.seg.Contiguous? {
      FitExactContiguous(l);
      ContiguousDisjoint(l);
    } else {
      FitExactSplit(l);
      SplitDisjointExact(l);
      if (l.numBlocks - 1) * l.blockStride <= U64_MAX {
        TwoDistancesDecide(l, l.seg.kvStride);
      }
    }
  }

  /**
   When the stride is at least a segment and the layout fits its region, the
   two-distance check rejects only if some K range really meets some V range.
   */
  lemma RejectionIsReal(l: Layout)
    requires Shaped(l) && l.seg.Split? && l.segmentBytes <= l.blockStride && AllFit(l)
    ensures CheckSplitSegmentsDisjoint(l, l.seg.kvStride).Err?
       <==> exists b: nat, b': nat :: b < l.numBlocks && b' < l.numBlocks
              && Overlap(SegmentRange(l, b, 0), SegmentRange(l, b', 1))
  {
    FitExactSplit(l);
    var kv := l.seg.kvStride;
    TwoDistancesDecide(l, kv);
    if CheckSplitSegmentsDisjoint(l, kv).Err? {
      var d: nat :| d < l.numBlocks && !DistanceClear(l, kv, d);
      CrossKindApart(l, 0, d);
      assert Overlap(SegmentRange(l, d, 0), SegmentRange(l, 0, 1));
    } else {
      forall b: nat, b': nat | b < l.numBlocks && b' < l.numBlocks
        ensures !Overlap(SegmentRange(l, b, 0), SegmentRange(l, b', 1))
      {
        CrossKindApart(l, b', b);
      }
    }
  }

  // ---------------------------------------------------------------------------
  // Construction
  // ---------------------------------------------------------------------------

  /** The device ranges a registration request asks for, from its arguments alone. */
  function Asked(dataPtr: nat, segmentBytes: nat, kvStride: nat, segments: nat, block: nat): seq<Range> {
    if segments == 1 || kvStride == segmentBytes
    then [Range(dataPtr + block * (segmentBytes * segments), segmentBytes * segments)]
    else [Range(dataPtr + block * segmentBytes, segmentBytes),
          Range(dataPtr + block * segmentBytes + kvStride, segmentBytes)]
  }

  /** Every range that was asked for lies in the region. */
  ghost predicate AskedFit(dataPtr: nat, sizeBytes: nat, numBlocks: nat, segmentBytes: nat, kvStride: nat,
                           segments: nat)
  {
    forall b: nat, i: nat :: b < numBlocks && i < |Asked(dataPtr, segmentBytes, kvStride, segments, b)| ==>
      Within(Asked(dataPtr, segmentBytes, kvStride, segments, b)[i], dataPtr, dataPtr + sizeBytes)
  }

  /** No two ranges that were asked for share a byte. */
  ghost predicate AskedDisjoint(dataPtr: nat, numBlocks: nat, segmentBytes: nat, kvStride: nat, segments: nat) {
    forall b: nat, i: nat, c: nat, j: nat ::
      b < numBlocks && c < numBlocks && (b, i) != (c, j)
      && i < |Asked(dataPtr, segmentBytes, kvStride, segments, b)|
      && j < |Asked(dataPtr, segmentBytes, kvStride, segments, c)| ==>
        !Overlap(Asked(dataPtr, segmentBytes, kvStride, segments, b)[i],
                 Asked(dataPtr, segmentBytes, kvStride, segments, c)[j])
  }

  /** Back-to-back blocks: each ends where the next one starts, so all end by the last. */
  lemma DenseBlocks(bytes: nat, b: nat, c: nat)
    requires b < c
    ensures b * bytes + bytes <= c * bytes
  {
    MulMonotone(b + 1, c, bytes);
  }

  lemma AskedWholeFit(dataPtr: nat, sizeBytes: nat, numBlocks: nat, segmentBytes: nat, kvStride: nat, segments: nat)
    requires numBlocks > 0 && (segments == 1 || kvStride == segmentBytes)
    ensures AskedFit(dataPtr, sizeBytes, numBlocks, segmentBytes, kvStride, segments)
       <==> numBlocks * (segmentBytes * segments) <= sizeBytes
  {
    var bytes := segmentBytes * segments;
    if numBlocks * bytes <= sizeBytes {
      forall b: nat, i: nat | b < numBlocks && i < |Asked(dataPtr, segmentBytes, kvStride, segments, b)|
        ensures Within(Asked(dataPtr, segmentBytes, kvStride, segments, b)[i], dataPtr, dataPtr + sizeBytes)
      {
        DenseBlocks(bytes, b, numBlocks);
      }
    } else {
      var last := Asked(dataPtr, segmentBytes, kvStride, segments, numBlocks - 1)[0];
      assert (numBlocks - 1) * bytes + bytes == numBlocks * bytes;
      assert !Within(last, dataPtr, dataPtr + sizeBytes);
    }
  }

  lemma AskedWholeApart(dataPtr: nat, numBlocks: nat, segmentBytes: nat, kvStride: nat, segments: nat)
    requires segments == 1 || kvStride == segmentBytes
    ensures AskedDisjoint(dataPtr, numBlocks, segmentBytes, kvStride, segments)
  {
    forall b: nat, i: nat, c: nat, j: nat
      | b < numBlocks && c < numBlocks && (b, i) != (c, j)
        && i < |Asked(dataPtr, segmentBytes, kvStride, segments, b)|
        && j < |Asked(dataPtr, segmentBytes, kvStride, segments, c)|
      ensures !Overlap(Asked(dataPtr, segmentBytes, kvStride, segments, b)[i],
                       Asked(dataPtr, segmentBytes, kvStride, segments, c)[j])
    {
      if b < c { DenseBlocks(segmentBytes * segments, b, c); } else { DenseBlocks(segmentBytes * segments, c, b); }
    }
  }

  /** Two dense runs of segments are apart exactly when the second starts after the first has ended. */
  lemma AskedSplitApart(dataPtr: nat, numBlocks: nat, segmentBytes: nat, kvStride: nat)
    requires numBlocks > 0 && segmentBytes > 0 && kvStride != segmentBytes
    ensures AskedDisjoint(dataPtr, numBlocks, segmentBytes, kvStride, 2) <==> numBlocks * segmentBytes <= kvStride
  {
    if kvStride < numBlocks * segmentBytes {
      QuotientBounds(kvStride, segmentBytes);
      var q := kvStride / segmentBytes;
      if q >= numBlocks { MulMonotone(numBlocks, q, segmentBytes); }
      assert Overlap(Asked(dataPtr, segmentBytes, kvStride, 2, q)[0], Asked(dataPtr, segmentBytes, kvStride, 2, 0)[1]);
    } else {
      forall b: nat, i: nat, c: nat, j: nat
        | b < numBlocks && c < numBlocks && (b, i) != (c, j)
          && i < |Asked(dataPtr, segmentBytes, kvStride, 2, b)| && j < |Asked(dataPtr, segmentBytes, kvStride, 2, c)|
        ensures !Overlap(Asked(dataPtr, segmentBytes, kvStride, 2, b)[i],
                         Asked(dataPtr, segmentBytes, kvStride, 2, c)[j])
      {
        AskedSplitPair(dataPtr, numBlocks, segmentBytes, kvStride, b, i, c, j);
      }
    }
  }

  lemma AskedSplitPair(dataPtr: nat, numBlocks: nat, segmentBytes: nat, kvStride: nat, b: nat, i: nat, c: nat, j: nat)
    requires kvStride != segmentBytes && numBlocks * segmentBytes <= kvStride
    requires b < numBlocks && c < numBlocks && (b, i) != (c, j) && i < 2 && j < 2
    ensures !Overlap(Asked(dataPtr, segmentBytes, kvStride, 2, b)[i], Asked(dataPtr, segmentBytes, kvStride, 2, c)[j])
  {
    DenseBlocks(segmentBytes, b, numBlocks);
    DenseBlocks(segmentBytes, c, numBlocks);
    if b < c { DenseBlocks(segmentBytes, b, c); }
    if c < b { DenseBlocks(segmentBytes, c, b); }
  }

  lemma AskedSplitFit(dataPtr: nat, sizeBytes: nat, numBlocks: nat, segmentBytes: nat, kvStride: nat)
    requires numBlocks > 0 && segmentBytes > 0 && kvStride != segmentBytes
    ensures AskedFit(dataPtr, sizeBytes, numBlocks, segmentBytes, kvStride, 2)
       <==> kvStride + numBlocks * segmentBytes <= sizeBytes
  {
    if kvStride + numBlocks * segmentBytes <= sizeBytes {
      forall b: nat, i: nat | b < numBlocks && i < |Asked(dataPtr, segmentBytes, kvStride, 2, b)|
        ensures Within(Asked(dataPtr, segmentBytes, kvStride, 2, b)[i], dataPtr, dataPtr + sizeBytes)
      {
        DenseBlocks(segmentBytes, b, numBlocks);
      }
    } else {
      var last := Asked(dataPtr, segmentBytes, kvStride, 2, numBlocks - 1)[1];
      assert (numBlocks - 1) * segmentBytes + segmentBytes == numBlocks * segmentBytes;
      assert !Within(last, dataPtr, dataPtr + sizeBytes);
    }
  }

  /** The two probes on a dense split layout come down to one comparison. */
  lemma DenseSplitDistances(l: Layout, kv: usize)
    requires l.numBlocks > 0 && l.segmentBytes > 0 && l.blockStride == l.segmentBytes
    ensures (forall d: nat :: d < l.numBlocks ==> DistanceClear(l, kv, d)) <==> l.numBlocks * l.segmentBytes <= kv
  {
    if l.numBlocks * l.segmentBytes <= kv {
      forall d: nat | d < l.numBlocks ensures DistanceClear(l, kv, d) {
        MulMonotone(d + 1, l.numBlocks, l.segmentBytes);
      }
    } else {
      var q := BlocksSpanned(l, kv);
      if q >= l.numBlocks { MulMonotone(l.numBlocks, q, l.segmentBytes); }
      assert !DistanceClear(l, kv, q);
    }
  }

  /** Registration in numbers: when it succeeds, and where every block then is. */
  lemma NewInNumbers(dataPtr: usize, sizeBytes: usize, numBlocks: usize, segmentBytes: usize,
                     kvStride: usize, segments: usize)
    ensures var r := New(dataPtr, sizeBytes, numBlocks, segmentBytes, kvStride, segments);
            && (r.Ok? <==>
                && dataPtr > 0 && sizeBytes > 0 && numBlocks > 0 && segmentBytes > 0 && segments > 0
                && dataPtr + sizeBytes <= 0xFFFF_FFFF_FFFF_FFFF && segmentBytes * segments <= 0xFFFF_FFFF_FFFF_FFFF
                && (if segments == 1 || kvStride == segmentBytes
                    then numBlocks * (segmentBytes * segments) <= sizeBytes
                    else segments == 2 && numBlocks * segmentBytes <= kvStride
                         && kvStride + numBlocks * segmentBytes <= sizeBytes))
            && (r.Ok? ==>
                && r.value.numBlocks == numBlocks && r.value.paddedSegmentBytes == segmentBytes
                && forall b: nat :: b < numBlocks ==>
                     PiecesOf(r.value, b) ==
                     if segments == 1 || kvStride == segmentBytes
                     then [Range(dataPtr + b * (segmentBytes * segments), segmentBytes * segments)]
                     else [Range(dataPtr + b * segmentBytes, segmentBytes),
                           Range(dataPtr + b * segmentBytes + kvStride, segmentBytes)])
  {
    if dataPtr > 0 && sizeBytes > 0 && numBlocks > 0 && segmentBytes > 0 && segments > 0
       && dataPtr + sizeBytes <= U64_MAX && segmentBytes * segments <= U64_MAX {
      assert segmentBytes * segments > 0;
      if segments == 1 || kvStride == segmentBytes {
        assert (numBlocks - 1) * (segmentBytes * segments) + segmentBytes * segments
            == numBlocks * (segmentBytes * segments);
      } else if segments == 2 {
        assert (numBlocks - 1) * segmentBytes + segmentBytes == numBlocks * segmentBytes;
        if segmentBytes < kvStride {
          var l := Layout(dataPtr, sizeBytes, numBlocks, segmentBytes, segmentBytes, 2, segmentBytes, Split(kvStride));
          DenseSplitDistances(l, kvStride);
          if (numBlocks - 1) * segmentBytes <= U64_MAX { TwoDistancesDecide(l, kvStride); }
        } else {
          MulMonotone(1, numBlocks, segmentBytes);
        }
      }
    }
  }

  /**
   Registration succeeds exactly for sane arguments whose ranges all fit the
   region and never alias; the result addresses exactly the ranges that were asked for.
   */
  lemma NewExact(dataPtr: usize, sizeBytes: usize, numBlocks: usize, segmentBytes: usize,
                 kvStride: usize, segments: usize)
    ensures var r := New(dataPtr, sizeBytes, numBlocks, segmentBytes, kvStride, segments);
            && (r.Ok? <==>
                && dataPtr > 0 && sizeBytes > 0 && numBlocks > 0 && segmentBytes > 0 && segments > 0
                && dataPtr + sizeBytes <= U64_MAX && segmentBytes * segments <= U64_MAX
                && (segments <= 2 || kvStride == segmentBytes)
                && AskedFit(dataPtr, sizeBytes, numBlocks, segmentBytes, kvStride, segments)
                && AskedDisjoint(dataPtr, numBlocks, segmentBytes, kvStride, segments))
            && (r.Ok? ==>
                && Accepted(r.value)
                && forall b: nat :: b < numBlocks ==>
                     PiecesOf(r.value, b) == Asked(dataPtr, segmentBytes, kvStride, segments, b))
  {
    NewInNumbers(dataPtr, sizeBytes, numBlocks, segmentBytes, kvStride, segments);
    if numBlocks > 0 && segmentBytes > 0 {
      if segments == 1 || kvStride == segmentBytes {
        AskedWholeFit(dataPtr, sizeBytes, numBlocks, segmentBytes, kvStride, segments);
        AskedWholeApart(dataPtr, numBlocks, segmentBytes, kvStride, segments);
      } else if segments == 2 {
        AskedSplitFit(dataPtr, sizeBytes, numBlocks, segmentBytes, kvStride);
        AskedSplitApart(dataPtr, numBlocks, segmentBytes, kvStride);
      }
    }
  }

  /** Restriding succeeds exactly when the restrided segments still fit and never alias, and moves nothing else. */
  lemma WithBlockStrideExact(l: Layout, stride: usize)
    requires Accepted(l)
    ensures var r := WithBlockStride(l, stride);
            && (r.Ok? <==>
                  && (if l.seg.Contiguous? then l.segmentBytes * l.segments else l.segmentBytes) <= stride
                  && AllFit(l.(blockStride := stride)) && AllDisjoint(l.(blockStride := stride)))
            && (r.Ok? ==>
                && r.value == l.(blockStride := stride) && Accepted(r.value)
                && forall b: nat :: b < l.numBlocks ==>
                     PiecesOf(r.value, b) ==
                     if l.seg.Contiguous? then [Range(l.dataPtr + b * stride, l.segmentBytes * l.segments)]
                     else [Range(l.dataPtr + b * stride, l.segmentBytes),
                           Range(l.dataPtr + b * stride + l.seg.kvStride, l.segmentBytes)])
  {
    assert l.MinStride() > 0 by {
      assert l.BlockBytes() >= l.segmentBytes by { MulMonotone(1, l.segments, l.segmentBytes); }
    }
    if l.MinStride() <= stride {
      BoundsCheckExact(l.(blockStride := stride));
    }
  }

  /** Padding rounds the host stride up to the next multiple and touches nothing else. */
  lemma WithSsdPaddingKeeps(l: Layout, alignment: nat)
    requires Accepted(l) && alignment > 0
    ensures var p := WithSsdPadding(l, alignment);
            && Accepted(p)
            && p == l.(paddedSegmentBytes := p.paddedSegmentBytes)
            && p.paddedSegmentBytes % alignment == 0
            && l.segmentBytes <= p.paddedSegmentBytes < l.segmentBytes + alignment
            && p.BlockBytes() <= p.PaddedBlockBytes()
            && p.PaddedBlockBytes() % alignment == 0
  {
    var p := WithSsdPadding(l, alignment);
    NextMultipleOfIsMultiple(l.segmentBytes, alignment);
    MulMonotone(l.segmentBytes, p.paddedSegmentBytes, l.segments);
    MultipleTimes(p.paddedSegmentBytes, l.segments, alignment);
  }

  lemma NextMultipleOfIsMultiple(n: nat, alignment: nat)
    requires alignment > 0
    ensures NextMultipleOf(n, alignment) % alignment == 0
  {
    var q, r := n / alignment, n % alignment;
    assert n == q * alignment + r;
    if r != 0 {
      assert NextMultipleOf(n, alignment) == (q + 1) * alignment;
      MultipleOf(q + 1, alignment);
    }
  }

  lemma MultipleOf(k: nat, m: nat)
    requires m > 0
    ensures (k * m) % m == 0
  {
    var q, r := (k * m) / m, (k * m) % m;
    assert (k - q) * m == r;
    if k > q { MulMonotone(1, k - q, m); }
    if k < q { MulMonotone(1, q - k, m); }
  }

  lemma MultipleTimes(a: nat, k: nat, m: nat)
    requires m > 0 && a % m == 0
    ensures (a * k) % m == 0
  {
    var q := a / m;
    assert a * k == (q * k) * m;
    MultipleOf(q * k, m);
  }

  // ---------------------------------------------------------------------------
  // What the copy paths may rely on
  // ---------------------------------------------------------------------------

  /** The device ranges of one block, in copy order. */
  function PiecesOf(l: Layout, block: nat): seq<Range> {
    match CopiesOf(l, block)
    case Err(_) => []
    case Ok(Whole(c)) => [c]
    case Ok(KAndV(k, v)) => [k, v]
  }

  /** Each returned range is a run of whole segments of that block, and all segments are in some range. */
  lemma PiecesCoverSegments(l: Layout, block: nat)
    requires Shaped(l) && block < l.numBlocks
    ensures l.seg.Contiguous? ==>
      PiecesOf(l, block) == [Range(SegmentRange(l, block, 0).addr, l.segments * l.segmentBytes)]
    ensures l.seg.Split? ==> PiecesOf(l, block) == [SegmentRange(l, block, 0), SegmentRange(l, block, 1)]
  {
  }

  /**
   For an accepted layout every range handed to the copy paths is non-empty,
   lies in the registered region and has a representable end, for every block.
   */
  lemma PiecesInRegion(l: Layout, block: nat, i: nat)
    requires Accepted(l) && i < |PiecesOf(l, block)|
    ensures var p := PiecesOf(l, block)[i];
            0 < p.bytes && Within(p, l.dataPtr, l.dataPtr + l.sizeBytes) && p.addr + p.bytes <= U64_MAX
  {
    BoundsCheckExact(l);
    MulMonotone(block, l.numBlocks - 1, l.blockStride);
    if l.seg.Contiguous? {
      FitExactContiguous(l);
      MulMonotone(1, l.segments, l.segmentBytes);
    } else {
      assert IsSegment(l, block, 0) && IsSegment(l, block, 1);
    }
  }

  lemma WholeBlocksDisjoint(l: Layout, block: nat, block': nat)
    requires l.seg.Contiguous? && l.BlockBytes() <= l.blockStride
    requires block < block' < l.numBlocks
    ensures !Overlap(PiecesOf(l, block)[0], PiecesOf(l, block')[0])
  {
    BlockGap(l, block, block');
  }

  /** No two ranges of an accepted layout meet, over all blocks and both segments. */
  lemma PiecesDisjoint(l: Layout, block: nat, i: nat, block': nat, i': nat)
    requires Accepted(l) && (block, i) != (block', i')
    requires i < |PiecesOf(l, block)| && i' < |PiecesOf(l, block')|
    ensures !Overlap(PiecesOf(l, block)[i], PiecesOf(l, block')[i'])
  {
    if l.seg.Contiguous? {
      if block < block' { WholeBlocksDisjoint(l, block, block'); } else { WholeBlocksDisjoint(l, block', block); }
    } else {
      BoundsCheckExact(l);
      PiecesCoverSegments(l, block);
      PiecesCoverSegments(l, block');
      assert IsSegment(l, block, i) && IsSegment(l, block', i');
    }
  }
}
