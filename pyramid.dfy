/** The pyramid of chunk maps (`ChunkPyramid`): level 0 is the finest, and
    `downsample_chunk` propagates one chunk of a fine level into a coarser
    one. */
module Pyramid {
  import opened Points
  import opened Storage
  import opened Addressing

  /** The ways `downsample_chunk` and the level accessors panic. */
  datatype Panic =
    | LodNotIncreasing       // `assert!(dst_lod > src_lod)`
    | SplitPastEnd           // `split_at_mut(dst_lod)` with `dst_lod` past the end
    | LevelIndexOutOfBounds  // indexing the level vector past its end

  datatype Result<R> = Ok(value: R) | Err(panic: Panic)

  datatype Option<R> = None | Some(value: R)

  datatype Outcome = Done | Panicked(panic: Panic)

  /** All levels share the chunk shape of level 0 and keep ChunkMapValid:
      what building every level from one builder gives. */
  ghost predicate SharedShape<T>(levels: seq<ChunkMap<T>>)
  {
    |levels| > 0 ==> LevelsValid(levels, levels[0].chunkShape)
  }

  /** The index into the level vector that `tail[dst_lod - src_lod - 1]`
      selects, `tail` being the part from `dst_lod` on. The source level lies
      before `dst_lod` and this one from `dst_lod` on, so the two borrows are
      disjoint; it is `dst_lod` itself only for a delta of one. */
  function DestinationLevelIndex(srcLod: U8, dstLod: U8): (r: nat)
    requires srcLod < dstLod
    ensures srcLod < dstLod <= r
    ensures r == dstLod <==> dstLod == srcLod + 1
  {
    dstLod + (dstLod - srcLod - 1)
  }

  /** The destination map after the write of `downsample_chunk`: the chunk at
      the computed key is fetched (or created with the destination's ambient
      value) and stored back, after the sampler ran on it (source chunk
      present) or after the sub-extent at the offset, of shape `fillShape`,
      was filled with the source level's ambient value (source chunk
      absent). Every other chunk stays as it was. */
  function WriteDestination<T>(srcMap: ChunkMap<T>, dstMap: ChunkMap<T>, sampler: Downsampler<T>,
                               srcChunkKey: Point, lodDelta: U8, fillShape: Point): (m: ChunkMap<T>)
    requires ChunkMapValid(srcMap, srcMap.chunkShape) && ChunkMapValid(dstMap, srcMap.chunkShape)
    requires |srcChunkKey| == |srcMap.chunkShape|
    ensures m.chunkShape == dstMap.chunkShape && m.ambientValue == dstMap.ambientValue
  {
    var dst := ForSourceChunk(srcMap.chunkShape, srcChunkKey, lodDelta);
    var dstChunk := ChunkOrAmbient(dstMap, dst.dstChunkKey);
    var written :=
      if srcChunkKey in srcMap.chunks then
        Downsample(sampler, srcMap.chunks[srcChunkKey].samples, dstChunk.samples, dst.dstOffset, lodDelta)
      else
        var dstExtent := Extent(Add(dstChunk.samples.extent.minimum, dst.dstOffset), fillShape);
        FillExtent(dstChunk.samples, dstExtent, srcMap.ambientValue);
    InsertChunk(dstMap, dst.dstChunkKey, dstChunk.(samples := written))
  }

  /** What the write touches: the destination map gains the computed key
      (if it was absent) and every other chunk stays as it was. */
  lemma WriteDestinationFrame<T>(srcMap: ChunkMap<T>, dstMap: ChunkMap<T>, sampler: Downsampler<T>,
                                 srcChunkKey: Point, lodDelta: U8, fillShape: Point)
    requires ChunkMapValid(srcMap, srcMap.chunkShape) && ChunkMapValid(dstMap, srcMap.chunkShape)
    requires |srcChunkKey| == |srcMap.chunkShape|
    ensures var m := WriteDestination(srcMap, dstMap, sampler, srcChunkKey, lodDelta, fillShape);
            var key := ForSourceChunk(srcMap.chunkShape, srcChunkKey, lodDelta).dstChunkKey;
            && m.chunks.Keys == dstMap.chunks.Keys + {key}
            && forall k | k in dstMap.chunks && k != key :: m.chunks[k] == dstMap.chunks[k]
  {
  }

  /** `downsample_chunk` on the level vector, as the source writes it: the
      level written is DestinationLevelIndex, and the sparse fill always has
      the shape `chunk_shape >> 1`. It fails exactly when the levels are not
      increasing or that index is past the end, and then nothing changes;
      otherwise it changes that one level only. */
  function DownsampleLevels<T>(levels: seq<ChunkMap<T>>, sampler: Downsampler<T>,
                               srcChunkKey: Point, srcLod: U8, dstLod: U8): (r: Result<seq<ChunkMap<T>>>)
    requires SharedShape(levels)
    requires |levels| > 0 ==> |srcChunkKey| == |levels[0].chunkShape|
    ensures dstLod <= srcLod ==> r == Err(LodNotIncreasing)
    ensures srcLod < dstLod && |levels| < dstLod ==> r == Err(SplitPastEnd)
    ensures srcLod < dstLod <= |levels| <= 2 * dstLod - srcLod - 1 ==> r == Err(LevelIndexOutOfBounds)
    ensures r.Ok? <==> srcLod < dstLod && 2 * dstLod - srcLod - 1 < |levels|
    ensures r.Ok? ==> |r.value| == |levels|
    ensures r.Ok? ==> forall i | 0 <= i < |levels| && i != 2 * dstLod - srcLod - 1 :: r.value[i] == levels[i]
  {
    if dstLod <= srcLod then Err(LodNotIncreasing)
    else if dstLod > |levels| then Err(SplitPastEnd)
    else
      var di := DestinationLevelIndex(srcLod, dstLod);
      if di >= |levels| then Err(LevelIndexOutOfBounds)
      else
        var srcMap := levels[srcLod];
        var written := WriteDestination(srcMap, levels[di], sampler, srcChunkKey, dstLod - srcLod, ShrScalar(srcMap.chunkShape, 1));
        Ok(levels[di := written])
  }

  /** The successful case of DownsampleLevels: the level at
      DestinationLevelIndex becomes the map written with the delta
      `lodDelta`, and all levels stay valid with the shared shape. The
      parameters `lodDelta`, `di` and `written` name values the caller has
      already computed, and `chunkShape` the shared shape; they are proof
      plumbing that keeps the solver's work small, not part of the property. */
  lemma DownsampleWritesLevel<T>(levels: seq<ChunkMap<T>>, sampler: Downsampler<T>, srcChunkKey: Point, srcLod: U8, dstLod: U8,
                                 lodDelta: U8, di: nat, written: ChunkMap<T>, chunkShape: Point)
    requires LevelsValid(levels, chunkShape) && |srcChunkKey| == |chunkShape|
    requires srcLod < dstLod && lodDelta == dstLod - srcLod && di == DestinationLevelIndex(srcLod, dstLod) < |levels|
    requires written == WriteDestination(levels[srcLod], levels[di], sampler, srcChunkKey, lodDelta, ShrScalar(levels[srcLod].chunkShape, 1))
    ensures SharedShape(levels)
    ensures DownsampleLevels(levels, sampler, srcChunkKey, srcLod, dstLod) == Ok(levels[di := written])
    ensures LevelsValid(levels[di := written], chunkShape)
  {
    WriteDestinationDelta(levels[srcLod], levels[di], sampler, srcChunkKey, srcLod, dstLod, lodDelta, ShrScalar(levels[srcLod].chunkShape, 1));
    WriteDestinationValid(levels[srcLod], levels[di], sampler, srcChunkKey, lodDelta, ShrScalar(levels[srcLod].chunkShape, 1), chunkShape, written);
    ReplaceLevelValid(levels, di, written, chunkShape);
    assert SharedShape(levels);
  }

  /** The level delta held in a variable (`lod_delta`) and the difference
      `dst_lod - src_lod` that DownsampleLevels writes give the same write.
      This is proof plumbing, not a property of the model: it lets the solver
      match the two forms cheaply. */
  lemma WriteDestinationDelta<T>(srcMap: ChunkMap<T>, dstMap: ChunkMap<T>, sampler: Downsampler<T>,
                                 srcChunkKey: Point, srcLod: U8, dstLod: U8, lodDelta: U8, fillShape: Point)
    requires ChunkMapValid(srcMap, srcMap.chunkShape) && ChunkMapValid(dstMap, srcMap.chunkShape)
    requires |srcChunkKey| == |srcMap.chunkShape|
    requires lodDelta == dstLod - srcLod
    ensures WriteDestination(srcMap, dstMap, sampler, srcChunkKey, lodDelta, fillShape) ==
            WriteDestination(srcMap, dstMap, sampler, srcChunkKey, dstLod - srcLod, fillShape)
  {
  }

  /** Replacing one level by a valid map keeps all levels valid. */
  lemma ReplaceLevelValid<T>(levels: seq<ChunkMap<T>>, di: nat, m: ChunkMap<T>, chunkShape: Point)
    requires LevelsValid(levels, chunkShape) && di < |levels| && ChunkMapValid(m, chunkShape)
    ensures LevelsValid(levels[di := m], chunkShape)
  {
  }

  /** The write keeps the destination map valid: the computed key is on the
      chunk grid, and the chunk stored there spans the chunk extent. */
  lemma WriteDestinationValid<T>(srcMap: ChunkMap<T>, dstMap: ChunkMap<T>, sampler: Downsampler<T>,
                                 srcChunkKey: Point, lodDelta: U8, fillShape: Point, chunkShape: Point, m: ChunkMap<T>)
    requires ChunkMapValid(srcMap, chunkShape) && ChunkMapValid(dstMap, chunkShape)
    requires |srcChunkKey| == |chunkShape|
    requires m == WriteDestination(srcMap, dstMap, sampler, srcChunkKey, lodDelta, fillShape)
    ensures ChunkMapValid(m, chunkShape)
  {
    DestinationOnChunkGrid(chunkShape, srcChunkKey, lodDelta);
    var key := ForSourceChunk(chunkShape, srcChunkKey, lodDelta).dstChunkKey;
    assert m.chunks[key].samples.extent == ChunkOrAmbient(dstMap, key).samples.extent;
  }

  /** The sparse write: with no source chunk, inside the destination chunk
      the points of the extent at the offset, of shape `fillShape`, take the
      source map's ambient value and every other point keeps its prior value
      (the destination's ambient value if the chunk is new). */
  lemma WriteDestinationFill<T>(srcMap: ChunkMap<T>, dstMap: ChunkMap<T>, sampler: Downsampler<T>,
                                srcChunkKey: Point, lodDelta: U8, fillShape: Point)
    requires ChunkMapValid(srcMap, srcMap.chunkShape) && ChunkMapValid(dstMap, srcMap.chunkShape)
    requires |srcChunkKey| == |srcMap.chunkShape| && srcChunkKey !in srcMap.chunks
    ensures var m := WriteDestination(srcMap, dstMap, sampler, srcChunkKey, lodDelta, fillShape);
            var shape := srcMap.chunkShape;
            var dst := ForSourceChunk(shape, srcChunkKey, lodDelta);
            var fill := Extent(Add(dst.dstChunkKey, dst.dstOffset), fillShape);
            && dst.dstChunkKey in m.chunks
            && m.chunks[dst.dstChunkKey].samples.extent == Extent(dst.dstChunkKey, shape)
            && forall p | Contains(Extent(dst.dstChunkKey, shape), p) ::
                 m.chunks[dst.dstChunkKey].samples.values(p) ==
                   if Contains(fill, p) then srcMap.ambientValue
                   else if dst.dstChunkKey in dstMap.chunks then dstMap.chunks[dst.dstChunkKey].samples.values(p)
                   else dstMap.ambientValue
  {
    var dst := ForSourceChunk(srcMap.chunkShape, srcChunkKey, lodDelta);
    var prior := ChunkOrAmbient(dstMap, dst.dstChunkKey);
    assert prior.samples.extent == Extent(dst.dstChunkKey, srcMap.chunkShape);
  }

  /** A successful downsample keeps every level valid, with the same shape. */
  lemma DownsampleKeepsShape<T>(levels: seq<ChunkMap<T>>, sampler: Downsampler<T>, srcChunkKey: Point, srcLod: U8, dstLod: U8)
    requires SharedShape(levels)
    requires |levels| > 0 ==> |srcChunkKey| == |levels[0].chunkShape|
    requires DownsampleLevels(levels, sampler, srcChunkKey, srcLod, dstLod).Ok?
    ensures var l := DownsampleLevels(levels, sampler, srcChunkKey, srcLod, dstLod).value;
            SharedShape(l) && l[0].chunkShape == levels[0].chunkShape
  {
    var di := DestinationLevelIndex(srcLod, dstLod);
    var w := WriteDestination(levels[srcLod], levels[di], sampler, srcChunkKey, dstLod - srcLod, ShrScalar(levels[srcLod].chunkShape, 1));
    assert DownsampleLevels(levels, sampler, srcChunkKey, srcLod, dstLod) == Ok(levels[di := w]);
    WriteDestinationValid(levels[srcLod], levels[di], sampler, srcChunkKey, dstLod - srcLod, ShrScalar(levels[srcLod].chunkShape, 1), levels[0].chunkShape, w);
    var l := levels[di := w];
    forall i | 0 <= i < |l|
      ensures ChunkMapValid(l[i], levels[0].chunkShape)
    {
      if i != di {
        assert l[i] == levels[i];
      }
    }
  }

  /** Source chunk present: the destination chunk is the prior chunk at the
      computed key (or a new ambient one) after one sampler call with the
      source array, the computed offset and the delta. */
  lemma DownsampleSampled<T>(levels: seq<ChunkMap<T>>, sampler: Downsampler<T>, srcChunkKey: Point, srcLod: U8, dstLod: U8)
    requires SharedShape(levels)
    requires |levels| > 0 ==> |srcChunkKey| == |levels[0].chunkShape|
    requires DownsampleLevels(levels, sampler, srcChunkKey, srcLod, dstLod).Ok?
    requires srcChunkKey in levels[srcLod].chunks
    ensures var l := DownsampleLevels(levels, sampler, srcChunkKey, srcLod, dstLod).value;
            var di := DestinationLevelIndex(srcLod, dstLod);
            var dst := ForSourceChunk(levels[srcLod].chunkShape, srcChunkKey, dstLod - srcLod);
            var prior := ChunkOrAmbient(levels[di], dst.dstChunkKey).samples;
            && dst.dstChunkKey in l[di].chunks
            && l[di].chunks[dst.dstChunkKey].samples
               == Downsample(sampler, levels[srcLod].chunks[srcChunkKey].samples, prior, dst.dstOffset, dstLod - srcLod)
  {
  }

  /** Source chunk absent: inside the destination chunk, the points of the
      extent at the chunk's minimum plus the offset, of shape
      `chunk_shape >> 1` whatever the delta, take the source level's ambient
      value, and every other point keeps its prior value (the destination's
      ambient value if the chunk is new). */
  lemma DownsampleSparseFallback<T>(levels: seq<ChunkMap<T>>, sampler: Downsampler<T>, srcChunkKey: Point, srcLod: U8, dstLod: U8)
    requires SharedShape(levels)
    requires |levels| > 0 ==> |srcChunkKey| == |levels[0].chunkShape|
    requires DownsampleLevels(levels, sampler, srcChunkKey, srcLod, dstLod).Ok?
    requires srcChunkKey !in levels[srcLod].chunks
    ensures var l := DownsampleLevels(levels, sampler, srcChunkKey, srcLod, dstLod).value;
            var di := DestinationLevelIndex(srcLod, dstLod);
            var shape := levels[srcLod].chunkShape;
            var dst := ForSourceChunk(shape, srcChunkKey, dstLod - srcLod);
            var fill := Extent(Add(dst.dstChunkKey, dst.dstOffset), ShrScalar(shape, 1));
            && dst.dstChunkKey in l[di].chunks
            && l[di].chunks[dst.dstChunkKey].samples.extent == Extent(dst.dstChunkKey, shape)
            && forall p | Contains(Extent(dst.dstChunkKey, shape), p) ::
                 l[di].chunks[dst.dstChunkKey].samples.values(p) ==
                   if Contains(fill, p) then levels[srcLod].ambientValue
                   else if dst.dstChunkKey in levels[di].chunks then levels[di].chunks[dst.dstChunkKey].samples.values(p)
                   else levels[di].ambientValue
  {
    var di := DestinationLevelIndex(srcLod, dstLod);
    WriteDestinationFill(levels[srcLod], levels[di], sampler, srcChunkKey, dstLod - srcLod, ShrScalar(levels[srcLod].chunkShape, 1));
  }

  /** The level index as written, for a delta of two from level 0: with four
      levels the chunk lands in level 3 and level 2 is left alone; with three
      levels the call panics although level 2 exists. */
  lemma WrongLevelForTwoLevelsUp<T>(levels: seq<ChunkMap<T>>, sampler: Downsampler<T>, srcChunkKey: Point)
    requires SharedShape(levels) && 3 <= |levels| <= 4
    requires |srcChunkKey| == |levels[0].chunkShape|
    ensures var r := DownsampleLevels(levels, sampler, srcChunkKey, 0, 2);
            var key := ForSourceChunk(levels[0].chunkShape, srcChunkKey, 2).dstChunkKey;
            && (|levels| == 3 ==> r == Err(LevelIndexOutOfBounds))
            && (|levels| == 4 ==> r.Ok? && r.value[2] == levels[2] && key in r.value[3].chunks)
  {
  }

  /** The fill shape as written, for a delta of two: with 16-sample chunks
      and no source chunk at 0, the sample at 4 of the destination chunk takes
      the source's ambient value, although 4 is where the source chunk at 16
      lands (its footprint is [0, 4), the fill covers [0, 8)). */
  lemma SparseFillOverreaches<T>(levels: seq<ChunkMap<T>>, sampler: Downsampler<T>)
    requires SharedShape(levels) && |levels| == 4
    requires levels[0].chunkShape == [16] && [0] !in levels[0].chunks
    ensures var r := DownsampleLevels(levels, sampler, [0], 0, 2);
            && r.Ok? && [0] in r.value[3].chunks
            && r.value[3].chunks[[0]].samples.values([4]) == levels[0].ambientValue
            && ForSourceChunk([16], [16], 2) == DownsampleDestination([0], [4])
  {
    var key: Point, p: Point := [0], [4];
    OverreachAddresses();
    DownsampleSparseFallback(levels, sampler, key, 0, 2);
    assert Contains(Extent(key, [16]), p) && Contains(Extent(key, [8]), p);
  }

  /** The addresses behind SparseFillOverreaches: two levels up, the chunks
      at 0 and 16 of a 16-sample shape both land in the chunk at 0, at the
      offsets 0 and 4, and the fill shape as written is 8. */
  lemma OverreachAddresses()
    ensures ForSourceChunk([16], [0], 2) == DownsampleDestination([0], [0])
    ensures ForSourceChunk([16], [16], 2) == DownsampleDestination([0], [4])
    ensures Add([0], [0]) == [0] && ShrScalar([16], 1) == [8]
  {
    assert IsPow2(16);
    ForSourceChunkUniform(1, 16, 0, 2, 0, 0);
    ForSourceChunkUniform(1, 16, 16, 2, 0, 4);
    assert Splat(1, 16) == [16] && Splat(1, 0) == [0] && Splat(1, 4) == [4];
    assert ShrScalar([16], 1) == [8];
  }

  /** `downsample_chunk` as evidently intended: the chunk is written into
      level `dst_lod` itself, and the sparse fill has the shape of the source
      chunk's footprint, `chunk_shape >> delta`. It fails exactly when the
      levels are not increasing or `dst_lod` is not a level. */
  function IntendedDownsampleLevels<T>(levels: seq<ChunkMap<T>>, sampler: Downsampler<T>,
                                       srcChunkKey: Point, srcLod: U8, dstLod: U8): (r: Result<seq<ChunkMap<T>>>)
    requires SharedShape(levels)
    requires |levels| > 0 ==> |srcChunkKey| == |levels[0].chunkShape|
    ensures r.Ok? <==> srcLod < dstLod < |levels|
    ensures r.Ok? ==> |r.value| == |levels|
    ensures r.Ok? ==> forall i | 0 <= i < |levels| && i != dstLod :: r.value[i] == levels[i]
    ensures r.Ok? ==> ForSourceChunk(levels[0].chunkShape, srcChunkKey, dstLod - srcLod).dstChunkKey in r.value[dstLod].chunks
  {
    if dstLod <= srcLod then Err(LodNotIncreasing)
    else if dstLod >= |levels| then Err(LevelIndexOutOfBounds)
    else
      var srcMap := levels[srcLod];
      var lodDelta := dstLod - srcLod;
      Ok(levels[dstLod := WriteDestination(srcMap, levels[dstLod], sampler, srcChunkKey, lodDelta, ShrScalar(srcMap.chunkShape, lodDelta))])
  }

  /** The intended sparse fill covers exactly the source chunk's footprint at
      the destination level, the source extent scaled down by 2^delta, and it
      lies inside the destination chunk, so no neighbour's samples are
      touched. */
  lemma IntendedFillIsFootprint(chunkShape: Point, srcChunkKey: Point, lodDelta: U8)
    requires |chunkShape| == |srcChunkKey| && PowersOfTwo(chunkShape) && Aligned(srcChunkKey, chunkShape)
    ensures var dst := ForSourceChunk(chunkShape, srcChunkKey, lodDelta);
            var fill := Extent(Add(dst.dstChunkKey, dst.dstOffset), ShrScalar(chunkShape, lodDelta));
            && fill == Extent(ShrScalar(srcChunkKey, lodDelta), ShrScalar(chunkShape, lodDelta))
            && forall p | Contains(fill, p) :: Contains(Extent(dst.dstChunkKey, chunkShape), p)
  {
    DestinationLocatesScaledKey(chunkShape, srcChunkKey, lodDelta);
    DestinationOnChunkGrid(chunkShape, srcChunkKey, lodDelta);
    FootprintInsideDestination(chunkShape, srcChunkKey, lodDelta);
  }

  /** The intended sparse fallback: for a chunk-aligned source key with no
      chunk stored, exactly the points of the destination chunk that the
      source chunk covers at the destination level (IntendedFillIsFootprint)
      take the source level's ambient value; every other point keeps its
      prior value. */
  lemma IntendedSparseFill<T>(levels: seq<ChunkMap<T>>, sampler: Downsampler<T>, srcChunkKey: Point, srcLod: U8, dstLod: U8)
    requires SharedShape(levels)
    requires |levels| > 0 ==> |srcChunkKey| == |levels[0].chunkShape|
    requires srcLod < dstLod < |levels|
    requires Aligned(srcChunkKey, levels[0].chunkShape) && srcChunkKey !in levels[srcLod].chunks
    ensures var l := IntendedDownsampleLevels(levels, sampler, srcChunkKey, srcLod, dstLod).value;
            var shape := levels[0].chunkShape;
            var lodDelta := dstLod - srcLod;
            var key := ForSourceChunk(shape, srcChunkKey, lodDelta).dstChunkKey;
            var footprint := Extent(ShrScalar(srcChunkKey, lodDelta), ShrScalar(shape, lodDelta));
            && key in l[dstLod].chunks
            && forall p | Contains(Extent(key, shape), p) ::
                 ChunkOrAmbient(l[dstLod], key).samples.values(p) ==
                   if Contains(footprint, p) then levels[srcLod].ambientValue
                   else ChunkOrAmbient(levels[dstLod], key).samples.values(p)
  {
    var shape := levels[0].chunkShape;
    var lodDelta := dstLod - srcLod;
    var fillShape := ShrScalar(shape, lodDelta);
    assert levels[srcLod].chunkShape == shape;
    var m := WriteDestination(levels[srcLod], levels[dstLod], sampler, srcChunkKey, lodDelta, fillShape);
    assert IntendedDownsampleLevels(levels, sampler, srcChunkKey, srcLod, dstLod).value[dstLod] == m;
    WriteDestinationFill(levels[srcLod], levels[dstLod], sampler, srcChunkKey, lodDelta, fillShape);
    IntendedFillIsFootprint(shape, srcChunkKey, lodDelta);
  }

  /** The body of `downsample_chunk` after the two levels are borrowed:
      fetch or create the destination chunk, then run the sampler on it or,
      with no source chunk, fill the extent at the offset, of shape
      `chunk_shape >> 1`, with the source level's ambient value. It computes
      WriteDestination. */
  method DownsampleIntoLevel<T>(srcMap: ChunkMap<T>, dstMap: ChunkMap<T>, sampler: Downsampler<T>,
                                srcChunkKey: Point, lodDelta: U8) returns (m: ChunkMap<T>)
    requires ChunkMapValid(srcMap, srcMap.chunkShape) && ChunkMapValid(dstMap, srcMap.chunkShape)
    requires |srcChunkKey| == |srcMap.chunkShape|
    ensures m == WriteDestination(srcMap, dstMap, sampler, srcChunkKey, lodDelta, ShrScalar(srcMap.chunkShape, 1))
  {
    var chunkShape := srcMap.chunkShape;
    var dst := ForSourceChunk(chunkShape, srcChunkKey, lodDelta);
    var dstChunk := ChunkOrAmbient(dstMap, dst.dstChunkKey);
    ghost var fetched := dstChunk;
    m := InsertChunk(dstMap, dst.dstChunkKey, dstChunk);

    if srcChunkKey in srcMap.chunks {
      var srcChunk := srcMap.chunks[srcChunkKey];
      dstChunk := dstChunk.(samples := Downsample(sampler, srcChunk.samples, dstChunk.samples, dst.dstOffset, lodDelta));
    } else {
      var dstExtent := Extent(Add(dstChunk.samples.extent.minimum, dst.dstOffset), ShrScalar(chunkShape, 1));
      dstChunk := dstChunk.(samples := FillExtent(dstChunk.samples, dstExtent, srcMap.ambientValue));
    }
    m := InsertChunk(m, dst.dstChunkKey, dstChunk);
    InsertChunkTwice(dstMap, dst.dstChunkKey, fetched, dstChunk);
  }

  /** Storing at a key twice keeps the second chunk only. */
  lemma InsertChunkTwice<T>(m: ChunkMap<T>, key: Point, c0: Chunk<T>, c1: Chunk<T>)
    ensures InsertChunk(InsertChunk(m, key, c0), key, c1) == InsertChunk(m, key, c1)
  {
    assert InsertChunk(InsertChunk(m, key, c0), key, c1).chunks == m.chunks[key := c1];
  }

  /** The pyramid: one chunk map per level of detail, level 0 the finest. All
      levels share the chunk shape `ChunkShape`. */
  class ChunkPyramid<T> {
    var levels: seq<ChunkMap<T>>
    ghost const ChunkShape: Point

    ghost predicate Valid()
      reads this
    {
      && PowersOfTwo(ChunkShape)
      && LevelsValid(levels, ChunkShape)
    }

    /** `ChunkHashMapPyramid::new`: `numLevels` empty levels, each built from
        the builder. */
    constructor New(builder: ChunkMapBuilder<T>, numLevels: U8)
      requires PowersOfTwo(builder.chunkShape)
      ensures Valid() && ChunkShape == builder.chunkShape
      ensures |levels| == numLevels
      ensures forall i | 0 <= i < numLevels :: levels[i] == BuildWithWriteStorage(builder)
    {
      levels := seq(numLevels, _ => BuildWithWriteStorage(builder));
      ChunkShape := builder.chunkShape;
    }

    /** `levels_slice`: the level at every valid index, in order. */
    function LevelsSlice(): (r: seq<ChunkMap<T>>)
      reads this
      ensures |r| == |levels|
      ensures forall lod: U8 | lod < |r| :: Level(lod) == Some(r[lod])
    {
      levels[..]
    }

    /** `level`: the store of level `lod`; an index past the end panics. */
    function Level(lod: U8): (r: Option<ChunkMap<T>>)
      reads this
      ensures r.Some? <==> lod < |levels|
      ensures r.Some? ==> r.value == levels[lod]
    {
      if lod < |levels| then Some(levels[lod]) else None
    }

    /** `level_mut`, followed by the caller's writes through the returned
        reference: level `lod` becomes `level`, no other level changes; an
        index past the end panics and changes nothing. */
    method LevelMut(lod: U8, level: ChunkMap<T>) returns (outcome: Outcome)
      requires Valid() && ChunkMapValid(level, ChunkShape)
      modifies this
      ensures Valid()
      ensures lod < |old(levels)| ==> outcome == Done && levels == old(levels)[lod := level]
      ensures lod >= |old(levels)| ==> outcome == Panicked(LevelIndexOutOfBounds) && levels == old(levels)
    {
      if lod >= |levels| {
        return Panicked(LevelIndexOutOfBounds);
      }
      levels := levels[lod := level];
      return Done;
    }

    /** `downsample_chunk`: the step-by-step orchestration, proved to do what
        DownsampleLevels says; on a panic nothing is changed. */
    method DownsampleChunk(sampler: Downsampler<T>, srcChunkKey: Point, srcLod: U8, dstLod: U8) returns (outcome: Outcome)
      requires Valid() && |srcChunkKey| == |ChunkShape|
      modifies this
      ensures Valid()
      ensures var r := DownsampleLevels(old(levels), sampler, srcChunkKey, srcLod, dstLod);
              && (r.Ok? ==> outcome == Done && levels == r.value)
              && (r.Err? ==> outcome == Panicked(r.panic) && levels == old(levels))
    {
      var lv := levels;
      if dstLod <= srcLod {
        return Panicked(LodNotIncreasing);
      }
      var lodDelta := dstLod - srcLod;

      // `split_at_mut(dst_lod)`: the head holds levels [0, dst_lod), the
      // tail the levels from `dst_lod` on; `head[src_lod]` is level
      // `src_lod`, `tail[j]` is level `dst_lod + j`.
      if dstLod > |lv| {
        return Panicked(SplitPastEnd);
      }
      var tailIndex := dstLod - srcLod - 1;
      if tailIndex >= |lv| - dstLod {
        return Panicked(LevelIndexOutOfBounds);
      }
      var di := dstLod + tailIndex;
      assert DestinationLevelIndex(srcLod, dstLod) == di;

      // `head[src_lod]` is lv[srcLod], `tail[tailIndex]` is lv[di].
      var src, dst := lv[srcLod], lv[di];
      var written := DownsampleIntoLevel(src, dst, sampler, srcChunkKey, lodDelta);
      DownsampleWritesLevel(lv, sampler, srcChunkKey, srcLod, dstLod, lodDelta, di, written, ChunkShape);
      levels := lv[di := written];
      return Done;
    }
  }
}
