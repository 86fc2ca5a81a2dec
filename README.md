# Chunk pyramid of building-blocks, in Dafny

A model of the chunk pyramid of the `building_blocks_storage` crate. The
pyramid is a vector of chunk maps, one per level of detail. Level 0 is the
finest, and one sample of level `n + 1` covers two samples of level `n` on
every axis. The model covers:

- the addressing function `DownsampleDestination::for_source_chunk`. It says
  where the samples of one source chunk land `lod_delta` levels up: the key
  of the destination chunk and the offset inside it.
- the pyramid itself: its constructor, its level accessors and
  `downsample_chunk`. That operation borrows the source level and the
  destination level together, fetches or creates the destination chunk,
  then runs the sampler on it, or fills part of it with the source level's
  ambient value when no source chunk is stored.

Files:

- `points.dfy` (module `Points`): lattice points and the arithmetic behind
  integer shifts. A shift right is floor division by a power of two. A shift
  left is multiplication. `trailing_zeros` is the exponent of the largest
  power of two that divides the number.
- `addressing.dfy` (module `Addressing`): `ForSourceChunk`, written step by
  step as the source computes it. It is proved equal to a reference
  definition, `CoarseDestination`: scale the key down by `2^delta`, then
  split the result into a chunk key and an in-chunk offset. The remaining
  lemmas are its grid, periodicity, identity, footprint and test-vector
  properties.
- `storage.dfy` (module `Storage`): the part of a chunk map that the pyramid
  uses. A map goes from chunk keys to chunks. Each level has a chunk shape
  and an ambient value. It also defines `fill_extent` and the sampler
  capability.
- `pyramid.dfy` (module `Pyramid`):
  - `DownsampleLevels`, a function giving `downsample_chunk`'s effect on the
    level vector;
  - the class `ChunkPyramid`, whose method `DownsampleChunk` carries out the
    split borrow step by step and is proved to do what `DownsampleLevels`
    says;
  - the two discrepancies listed under Findings, and their corrected
    versions.

The remainder operator `%` on points is taken to be the Euclidean
(non-negative) remainder. With it, every source key, negative keys included,
maps to a grid-aligned key and an offset inside the chunk.

`ChunkPyramid.DownsampleChunk` keeps the behaviour of the source as written:
it writes the level `2 * dst_lod - src_lod - 1` and fills `chunk_shape >> 1`.
The corrected behaviour is `IntendedDownsampleLevels`. It writes level
`dst_lod`, which is level `N + level_delta` as the doc comment of
`for_source_chunk` (chunk_pyramid.rs:169-170) says. Its sparse fill covers
the sampler's footprint, `chunk_shape >> lod_delta`. Both are proved for it.

## Model

| member | source | states |
|---|---|---|
| Points.TrailingZeros | crates/building_blocks_storage/src/chunk_pyramid.rs:177 | the count r of trailing zero bits of a positive c: 2^r divides c and c / 2^r is odd |
| Points.TrailingZerosOfPow2 | crates/building_blocks_storage/src/chunk_pyramid.rs:177 | for a power-of-two chunk dimension the trailing-zero count is its exact base-2 logarithm |
| Points.TrailingZerosPoint | crates/building_blocks_storage/src/chunk_pyramid.rs:177 | every component of the result is the trailing-zero count of the matching chunk dimension, as the component-wise `trailing_zeros` map computes it; the result has the dimension of the input |
| Addressing.ForSourceChunk | crates/building_blocks_storage/src/chunk_pyramid.rs:171-188 | its own contract states only that key and offset have the source key's dimension; what it computes is stated by Addressing.ForSourceChunkIsCoarseDestination and Addressing.ForSourceChunkCharacterized |
| Addressing.ForSourceChunkIsCoarseDestination | crates/building_blocks_storage/src/chunk_pyramid.rs:171-188 | for power-of-two chunk shapes the shift-and-mask computation equals the reference: the chunk and offset of the source key scaled down by 2^delta, on every axis, negative keys included |
| Addressing.DestinationOnChunkGrid | crates/building_blocks_storage/src/chunk_pyramid.rs:180-182 | the destination key is a multiple of the chunk shape on every axis and the offset lies in [0, chunk_shape) |
| Addressing.DestinationLocatesScaledKey | crates/building_blocks_storage/src/chunk_pyramid.rs:180-182 | destination key plus offset is the source key shifted right by the level delta |
| Addressing.ForSourceChunkCharacterized | crates/building_blocks_storage/src/chunk_pyramid.rs:171-188 | a destination equals the computed one if and only if its key is grid-aligned, its offset is inside the chunk and the two add up to the scaled-down source key |
| Addressing.ForSourceChunkIs | crates/building_blocks_storage/src/chunk_pyramid.rs:171-188 | a grid-aligned key and in-chunk offset adding up to the scaled-down source key are the computed destination |
| Addressing.ForSourceChunkPeriodic | crates/building_blocks_storage/src/chunk_pyramid.rs:179-181 | moving the source key by k times `chunk_shape << delta` on one axis moves the destination key by k chunks on that axis and leaves the offset unchanged |
| Addressing.ForSourceChunkSameLevel | crates/building_blocks_storage/src/chunk_pyramid.rs:171-188 | with delta 0 a chunk-aligned key is its own destination with a zero offset |
| Addressing.ForSourceChunkUniform | crates/building_blocks_storage/src/chunk_pyramid.rs:171-188 | for a uniform key and a uniform power-of-two shape, in any dimension, a grid key and in-chunk offset adding up to the scaled-down key are the uniform destination |
| Addressing.FootprintInsideDestination | crates/building_blocks_storage/src/chunk_pyramid.rs:169-182 | for a chunk-aligned source key, offset plus `chunk_shape >> delta` stays within the chunk on every axis |
| Addressing.ForSourceChunkOneLevelUp | crates/building_blocks_storage/src/chunk_pyramid.rs:203-226 | shape 16^3, delta 1: key 16^3 gives key 0 and offset 8^3; key 32^3 gives key 16^3 and offset 0 |
| Addressing.ForSourceChunkTwoLevelsUp | crates/building_blocks_storage/src/chunk_pyramid.rs:229-252 | shape 16^3, delta 2: key 48^3 gives key 0 and offset 12^3; key 64^3 gives key 16^3 and offset 0 |
| Storage.BuildWithWriteStorage | crates/building_blocks_storage/src/chunk_pyramid.rs:104 | a freshly built level holds no chunks and carries the builder's chunk shape and ambient value |
| Storage.FilledArray | crates/building_blocks_storage/src/chunk_pyramid.rs:62 | the array that `get_mut_chunk_or_insert_ambient` fills for a new chunk: it has the given extent and every point in it holds the given value |
| Storage.AmbientChunk | crates/building_blocks_storage/src/chunk_pyramid.rs:62 | the chunk created for an absent key spans the chunk extent at the key and holds the level's ambient value at every point |
| Storage.ChunkOrAmbient | crates/building_blocks_storage/src/chunk_pyramid.rs:62 | the chunk handed out is the stored one when the key is present, else a chunk of the level's ambient value spanning the chunk extent at the key |
| Storage.InsertChunk | crates/building_blocks_storage/src/chunk_pyramid.rs:62 | storing a chunk changes the chunk at that key only and keeps the level's shape and ambient value |
| Storage.FillExtent | crates/building_blocks_storage/src/chunk_pyramid.rs:79-81 | the points of the array inside the extent take the value; the other points keep theirs; the array's extent is unchanged |
| Storage.Downsample | crates/building_blocks_storage/src/chunk_pyramid.rs:68-73 | the sampler call changes only the destination array's samples, never its extent |
| Pyramid.DestinationLevelIndex | crates/building_blocks_storage/src/chunk_pyramid.rs:55-57 | the level written lies at or after `dst_lod`, so it is distinct from the source level; it equals `dst_lod` if and only if the delta is 1 |
| Pyramid.WriteDestination | crates/building_blocks_storage/src/chunk_pyramid.rs:59-82 | the destination level keeps its chunk shape and ambient value |
| Pyramid.WriteDestinationFrame | crates/building_blocks_storage/src/chunk_pyramid.rs:59-82 | the write adds the destination key to the destination level and leaves every other chunk of it unchanged |
| Pyramid.WriteDestinationValid | crates/building_blocks_storage/src/chunk_pyramid.rs:59-62 | after the write every chunk of the destination level is still on the chunk grid and spans its chunk extent |
| Pyramid.DownsampleLevels | crates/building_blocks_storage/src/chunk_pyramid.rs:41-83 | fails with the assertion panic when `dst_lod <= src_lod`, with the split panic when `dst_lod` is past the end, and with the index panic when the tail is too short; succeeds exactly when `2 * dst_lod - src_lod - 1` is a level; then only that level changes and the number of levels stays |
| Pyramid.DownsampleWritesLevel | crates/building_blocks_storage/src/chunk_pyramid.rs:41-83 | when the level index is in bounds, the result is the level vector with that one level replaced by the written destination map, and every level stays valid |
| Pyramid.DownsampleKeepsShape | crates/building_blocks_storage/src/chunk_pyramid.rs:41-83 | a successful downsample leaves every level valid with the shared chunk shape |
| Pyramid.DownsampleSampled | crates/building_blocks_storage/src/chunk_pyramid.rs:65-73 | with a source chunk present, the destination chunk is the prior (or ambient) chunk after one sampler call with the source array, the offset and the delta |
| Pyramid.WriteDestinationFill | crates/building_blocks_storage/src/chunk_pyramid.rs:74-82 | with no source chunk, the destination chunk spans its chunk extent; the points in the extent at key plus offset, of the given fill shape, take the source ambient value; every other point keeps its prior value, or the destination ambient value for a new chunk |
| Pyramid.DownsampleSparseFallback | crates/building_blocks_storage/src/chunk_pyramid.rs:74-82 | with no source chunk, the points of the destination chunk in the extent at its minimum plus the offset, of shape `chunk_shape >> 1`, take the source ambient value; the others keep their prior value, or the destination ambient value for a new chunk |
| Pyramid.WrongLevelForTwoLevelsUp | crates/building_blocks_storage/src/chunk_pyramid.rs:55-57 | from level 0 to level 2: with four levels level 3 is written and level 2 is left alone; with three levels the call panics |
| Pyramid.SparseFillOverreaches | crates/building_blocks_storage/src/chunk_pyramid.rs:75-78 | shape 16, delta 2, no chunk at 0: sample 4 of the destination takes the ambient value although sample 4 is where the chunk at 16 lands |
| Pyramid.OverreachAddresses | crates/building_blocks_storage/src/chunk_pyramid.rs:75-78 | shape 16, delta 2: the chunks at 0 and 16 both land in the chunk at 0, at offsets 0 and 4, and the fill shape as written is 8 |
| Pyramid.IntendedDownsampleLevels | crates/building_blocks_storage/src/chunk_pyramid.rs:41-83 | corrected version: succeeds exactly when `src_lod < dst_lod < len`; then level `dst_lod` holds the destination chunk and no other level changes |
| Pyramid.IntendedFillIsFootprint | crates/building_blocks_storage/src/chunk_pyramid.rs:75-78 | the corrected fill extent is the source extent scaled down by 2^delta and lies inside the destination chunk |
| Pyramid.IntendedSparseFill | crates/building_blocks_storage/src/chunk_pyramid.rs:74-82 | corrected fallback: exactly the points of the source chunk's footprint take the source ambient value; every other point keeps its prior value |
| Pyramid.DownsampleIntoLevel | crates/building_blocks_storage/src/chunk_pyramid.rs:59-82 | the fetch-or-insert of the destination chunk, the sampler call or the fill, and the write-back produce exactly WriteDestination's map |
| Pyramid.ChunkPyramid.New | crates/building_blocks_storage/src/chunk_pyramid.rs:98-108 | `num_levels` levels, each the empty level built from the builder, sharing its chunk shape |
| Pyramid.ChunkPyramid.LevelsSlice | crates/building_blocks_storage/src/chunk_pyramid.rs:20-22 | the slice has one entry per level, and entry i is the map `level(i)` returns |
| Pyramid.ChunkPyramid.Level | crates/building_blocks_storage/src/chunk_pyramid.rs:24-26 | the map of level `lod`; an index past the end gives none (the source panics) |
| Pyramid.ChunkPyramid.LevelMut | crates/building_blocks_storage/src/chunk_pyramid.rs:28-30 | writing through the reference replaces level `lod` only; past the end it panics and changes nothing |
| Pyramid.ChunkPyramid.DownsampleChunk | crates/building_blocks_storage/src/chunk_pyramid.rs:41-83 | the split borrow (`head[src_lod]` is level `src_lod`, `tail[j]` is level `dst_lod + j`), the fetch-or-insert and the sampler or fill produce exactly DownsampleLevels' levels; on any panic the pyramid is unchanged; the levels stay valid |

## Left out

- `CompressibleChunkPyramid` and its `new` (lines 111-154) are left out, because compression codecs are outside this model.
- The FNV hash map is modelled as a Dafny `map`. Hashing and capacity are not modelled.
- The sampler's aggregation rule is abstract. It is a caller-supplied function returning the destination's new samples.
- Chunk metadata (`Meta`) is not modelled. A chunk is its sample array.
- Points are unbounded integers of any dimension. The model has no `i32` wrap-around of `<<` and no fixed dimension `N`.
- Shift amounts are unbounded. In `for_source_chunk`, a shift by 32 or more (`log2(chunk_shape) + lod_delta >= 32` in the key shift, `lod_delta >= 32` in `chunk_shape << lod_delta` and `offset >> lod_delta`) panics in a debug build and is masked to its low 5 bits in a release build. The model computes the exact floor quotient and product instead.
- `%` on points is taken to be the Euclidean remainder. The `PointN` remainder implementation is not part of this model.
- `fill_extent` is taken to clip the filled extent to the array. The array implementation is not part of this model.
- The `debug_assert_eq!` at line 66 is not checked. Instead, every level keeps the invariant that each stored chunk spans its chunk extent.
- Chunk shapes are powers of two, as the chunk indexer demands. The chunk indexer is not part of this model.
- Panics are outcomes (`Panicked`, `Err`, `None`), not aborts.
- Pyramid.ChunkPyramid.LevelMut: models the caller writing a whole level through the returned reference. The aliasing of the `&mut` borrow is not modelled.
- Addressing.ForSourceChunk: its own contract states only the lengths of the result. Its properties are in the lemmas above, for power-of-two shapes only. A shape that is not a power of two is computed but not characterized.
- Pyramid.ChunkPyramid.DownsampleChunk: keeps the level index and fill shape as written. The corrected behaviour is proved for `IntendedDownsampleLevels` only.

## Findings

| source | as written | input that shows it | evidently intended | confidence | as-written member | corrected member |
|---|---|---|---|---|---|---|
| crates/building_blocks_storage/src/chunk_pyramid.rs:57 | `tail` starts at `dst_lod`, so `tail[dst_lod - src_lod - 1]` is level `2 * dst_lod - src_lod - 1` | `src_lod = 0`, `dst_lod = 2`: with 4 levels level 3 is written instead of 2; with 3 levels it panics | write level `dst_lod`, that is `tail[0]` | not executed | Pyramid.WrongLevelForTwoLevelsUp | Pyramid.IntendedDownsampleLevels |
| crates/building_blocks_storage/src/chunk_pyramid.rs:77 | the sparse fill has shape `chunk_shape >> 1` for every delta | chunk shape 16, delta 2, no chunk at key 0: the fill covers samples [0, 8) of the destination chunk, overwriting sample 4, where the chunk at key 16 lands | fill the source footprint, `chunk_shape >> lod_delta` | not executed | Pyramid.SparseFillOverreaches | Pyramid.IntendedSparseFill |
