/** The per-level chunk storage the pyramid drives, reduced to the surface it
    uses: a map from chunk keys to chunks, the chunk shape of the level's
    indexer, and the ambient value that stands for "no data". */
module Storage {
  import opened Points

  /** A dense array of samples over an extent (`ArrayN`). Only the values at
      points inside the extent are meaningful. */
  datatype ArrayN<T> = ArrayN(extent: Extent, values: Point -> T)

  /** `Array::fill`: an array whose every sample is v. */
  function FilledArray<T>(extent: Extent, v: T): (a: ArrayN<T>)
    ensures a.extent == extent
    ensures forall p :: Contains(extent, p) ==> a.values(p) == v
  {
    ArrayN(extent, _ => v)
  }

  /** `fill_extent`, taken to clip the filled region to the array: v is
      written at the points of e inside the array, every other sample keeps
      its value. */
  function FillExtent<T>(a: ArrayN<T>, e: Extent, v: T): (r: ArrayN<T>)
    ensures r.extent == a.extent
    ensures forall p :: Contains(a.extent, p) && Contains(e, p) ==> r.values(p) == v
    ensures forall p :: Contains(a.extent, p) && !Contains(e, p) ==> r.values(p) == a.values(p)
  {
    ArrayN(a.extent, p => if Contains(e, p) && Contains(a.extent, p) then v else a.values(p))
  }

  /** A chunk: its array of samples (the field `array` of the source); the
      caller-defined metadata is not modelled. */
  datatype Chunk<T> = Chunk(samples: ArrayN<T>)

  /** One level of the pyramid (`ChunkMap` over a hash-map storage). */
  datatype ChunkMap<T> = ChunkMap(chunkShape: Point, ambientValue: T, chunks: map<Point, Chunk<T>>)

  /** The configuration every level is built from (`ChunkMapBuilder`). */
  datatype ChunkMapBuilder<T> = ChunkMapBuilder(chunkShape: Point, ambientValue: T)

  /** `build_with_write_storage(FnvHashMap::default())`: an empty level. */
  function BuildWithWriteStorage<T>(builder: ChunkMapBuilder<T>): (m: ChunkMap<T>)
    ensures m.chunks == map[]
    ensures m.chunkShape == builder.chunkShape && m.ambientValue == builder.ambientValue
  {
    ChunkMap(builder.chunkShape, builder.ambientValue, map[])
  }

  /** What every level keeps: its chunk shape is `chunkShape` (positive powers
      of two), each key is on the chunk grid, and the chunk stored at a key
      spans exactly the chunk extent at that key. */
  ghost predicate ChunkMapValid<T>(m: ChunkMap<T>, chunkShape: Point)
  {
    && PowersOfTwo(chunkShape)
    && m.chunkShape == chunkShape
    && forall key | key in m.chunks ::
         && |key| == |chunkShape|
         && Aligned(key, chunkShape)
         && m.chunks[key].samples.extent == Extent(key, chunkShape)
  }

  /** Every map of the sequence is valid with chunk shape `chunkShape`. */
  ghost predicate LevelsValid<T>(levels: seq<ChunkMap<T>>, chunkShape: Point)
  {
    forall i | 0 <= i < |levels| :: ChunkMapValid(levels[i], chunkShape)
  }

  /** A chunk of the level at `key` filled with the level's ambient value. */
  function AmbientChunk<T>(m: ChunkMap<T>, key: Point): (c: Chunk<T>)
    ensures c.samples.extent == Extent(key, m.chunkShape)
    ensures forall p :: Contains(c.samples.extent, p) ==> c.samples.values(p) == m.ambientValue
  {
    Chunk(FilledArray(Extent(key, m.chunkShape), m.ambientValue))
  }

  /** The chunk `get_mut_chunk_or_insert_ambient` hands out: the stored one,
      or a new ambient chunk when the key is absent. */
  function ChunkOrAmbient<T>(m: ChunkMap<T>, key: Point): (c: Chunk<T>)
    ensures key in m.chunks ==> c == m.chunks[key]
    ensures key !in m.chunks ==> c == AmbientChunk(m, key)
  {
    if key in m.chunks then m.chunks[key] else AmbientChunk(m, key)
  }

  /** Store chunk c at key (the write-back of a mutable chunk borrow). */
  function InsertChunk<T>(m: ChunkMap<T>, key: Point, c: Chunk<T>): (r: ChunkMap<T>)
    ensures r.chunkShape == m.chunkShape && r.ambientValue == m.ambientValue
    ensures r.chunks == m.chunks[key := c]
  {
    m.(chunks := m.chunks[key := c])
  }

  /** The sampling capability (`ChunkDownsampler::downsample`): given the
      source array, the destination array, the offset and the level delta,
      it computes the destination's new samples. It is supplied by the
      caller; nothing is assumed about how it aggregates. */
  type Downsampler<!T> = (ArrayN<T>, ArrayN<T>, Point, U8) -> (Point -> T)

  /** One call of the sampler: it writes the destination array's samples and
      nothing else; the destination keeps its extent. */
  function Downsample<T>(sampler: Downsampler<T>, src: ArrayN<T>, dst: ArrayN<T>, dstOffset: Point, lodDelta: U8): (r: ArrayN<T>)
    ensures r.extent == dst.extent
  {
    dst.(values := sampler(src, dst, dstOffset, lodDelta))
  }
}
