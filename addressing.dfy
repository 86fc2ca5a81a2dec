/** The addressing function of the pyramid: where the samples of one chunk of
    a fine level land in a coarser level (`DownsampleDestination`). */
module Addressing {
  import opened Points

  /** The destination of a downsampled source chunk: the key of the chunk it
      lands in and the offset of its samples inside that chunk. */
  datatype DownsampleDestination = DownsampleDestination(dstChunkKey: Point, dstOffset: Point)

  /** `DownsampleDestination::for_source_chunk`, step by step as the source
      computes it. A shape that is not a power of two is not rejected; the
      properties below hold for powers of two only. */
  function ForSourceChunk(chunkShape: Point, srcChunkKey: Point, lodDelta: U8): (r: DownsampleDestination)
    requires |chunkShape| == |srcChunkKey| && Positive(chunkShape)
    ensures |r.dstChunkKey| == |r.dstOffset| == |srcChunkKey|
  {
    var chunkShapeLog2 := TrailingZerosPoint(chunkShape);
    var levelUpLog2 := Add(chunkShapeLog2, Splat(|chunkShape|, lodDelta));
    var levelUpShape := ShlScalar(chunkShape, lodDelta);
    var dstChunkKey := ShlPoint(ShrPoint(srcChunkKey, levelUpLog2), chunkShapeLog2);
    var offset := Rem(srcChunkKey, levelUpShape);
    DownsampleDestination(dstChunkKey, ShrScalar(offset, lodDelta))
  }

  /** Reference definition: scale the source key down by 2^delta to the
      coarse level's sample grid, then split that coarse point into the chunk
      that holds it and its position inside that chunk. */
  function CoarseDestination(chunkShape: Point, srcChunkKey: Point, lodDelta: U8): DownsampleDestination
    requires |chunkShape| == |srcChunkKey| && Positive(chunkShape)
  {
    var p := ShrScalar(srcChunkKey, lodDelta);
    DownsampleDestination(
      seq(|p|, i requires 0 <= i < |p| => (p[i] / chunkShape[i]) * chunkShape[i]),
      Rem(p, chunkShape))
  }

  /** One axis of the addressing: dividing by S*D then by nothing equals
      dividing by D, then by S; and the remainder modulo S*D, divided by D, is
      the remainder modulo S of the quotient by D. */
  lemma CoarseSplit(x: int, S: int, D: int)
    requires S > 0 && D > 0
    ensures x / (S * D) == (x / D) / S
    ensures (x % (S * D)) / D == (x / D) % S
  {
    var q, r := x / (S * D), x % (S * D);
    var a, b := r / D, r % D;
    assert r == a * D + b;
    if a >= S {
      MulMonotone(S, a, D);
      assert false;
    }
    assert q * (S * D) == (q * S) * D;
    assert x == (q * S + a) * D + b;
    DivModUnique(x, D, q * S + a, b);
    DivModUnique(x / D, S, q, a);
  }

  /** For a power-of-two chunk shape the shift-and-mask computation of the
      source is exactly the reference definition, negative keys included. */
  lemma ForSourceChunkIsCoarseDestination(chunkShape: Point, srcChunkKey: Point, lodDelta: U8)
    requires |chunkShape| == |srcChunkKey| && PowersOfTwo(chunkShape)
    ensures ForSourceChunk(chunkShape, srcChunkKey, lodDelta) == CoarseDestination(chunkShape, srcChunkKey, lodDelta)
  {
    var r := ForSourceChunk(chunkShape, srcChunkKey, lodDelta);
    var c := CoarseDestination(chunkShape, srcChunkKey, lodDelta);
    forall i | 0 <= i < |srcChunkKey|
      ensures r.dstChunkKey[i] == c.dstChunkKey[i] && r.dstOffset[i] == c.dstOffset[i]
    {
      var s := TrailingZeros(chunkShape[i]);
      TrailingZerosOfPow2(chunkShape[i]);
      Pow2Add(s, lodDelta);
      CoarseSplit(srcChunkKey[i], chunkShape[i], Pow2(lodDelta));
    }
  }

  /** The destination key lies on the chunk grid and the offset lies inside
      the chunk, on every axis, for every (also negative) source key. */
  lemma DestinationOnChunkGrid(chunkShape: Point, srcChunkKey: Point, lodDelta: U8)
    requires |chunkShape| == |srcChunkKey| && PowersOfTwo(chunkShape)
    ensures var r := ForSourceChunk(chunkShape, srcChunkKey, lodDelta);
            Aligned(r.dstChunkKey, chunkShape) &&
            forall i :: 0 <= i < |srcChunkKey| ==> 0 <= r.dstOffset[i] < chunkShape[i]
  {
    ForSourceChunkIsCoarseDestination(chunkShape, srcChunkKey, lodDelta);
    var r := ForSourceChunk(chunkShape, srcChunkKey, lodDelta);
    forall i | 0 <= i < |srcChunkKey|
      ensures r.dstChunkKey[i] % chunkShape[i] == 0
    {
      var p := Shr(srcChunkKey[i], lodDelta);
      DivModUnique((p / chunkShape[i]) * chunkShape[i], chunkShape[i], p / chunkShape[i], 0);
    }
  }

  /** The destination key plus the offset is the source key scaled down to
      the destination level's sample grid. */
  lemma DestinationLocatesScaledKey(chunkShape: Point, srcChunkKey: Point, lodDelta: U8)
    requires |chunkShape| == |srcChunkKey| && PowersOfTwo(chunkShape)
    ensures var r := ForSourceChunk(chunkShape, srcChunkKey, lodDelta);
            Add(r.dstChunkKey, r.dstOffset) == ShrScalar(srcChunkKey, lodDelta)
  {
    ForSourceChunkIsCoarseDestination(chunkShape, srcChunkKey, lodDelta);
    var c := CoarseDestination(chunkShape, srcChunkKey, lodDelta);
    var p := ShrScalar(srcChunkKey, lodDelta);
    forall i | 0 <= i < |srcChunkKey|
      ensures Add(c.dstChunkKey, c.dstOffset)[i] == p[i]
    {
      DivModIdentity(p[i], chunkShape[i]);
    }
  }

  /** The destination is the only grid-aligned key and in-chunk offset that
      add up to the scaled-down source key. */
  lemma ForSourceChunkCharacterized(chunkShape: Point, srcChunkKey: Point, lodDelta: U8, d: DownsampleDestination)
    requires |chunkShape| == |srcChunkKey| && PowersOfTwo(chunkShape)
    ensures ForSourceChunk(chunkShape, srcChunkKey, lodDelta) == d <==>
            && |d.dstChunkKey| == |d.dstOffset| == |srcChunkKey|
            && Aligned(d.dstChunkKey, chunkShape)
            && (forall i :: 0 <= i < |srcChunkKey| ==> 0 <= d.dstOffset[i] < chunkShape[i])
            && Add(d.dstChunkKey, d.dstOffset) == ShrScalar(srcChunkKey, lodDelta)
  {
    var r := ForSourceChunk(chunkShape, srcChunkKey, lodDelta);
    DestinationOnChunkGrid(chunkShape, srcChunkKey, lodDelta);
    DestinationLocatesScaledKey(chunkShape, srcChunkKey, lodDelta);
    var p := ShrScalar(srcChunkKey, lodDelta);
    if && |d.dstChunkKey| == |d.dstOffset| == |srcChunkKey|
       && Aligned(d.dstChunkKey, chunkShape)
       && (forall i :: 0 <= i < |srcChunkKey| ==> 0 <= d.dstOffset[i] < chunkShape[i])
       && Add(d.dstChunkKey, d.dstOffset) == p
    {
      forall i | 0 <= i < |srcChunkKey|
        ensures d.dstChunkKey[i] == r.dstChunkKey[i] && d.dstOffset[i] == r.dstOffset[i]
      {
        assert d.dstChunkKey[i] + d.dstOffset[i] == p[i];
        assert r.dstChunkKey[i] + r.dstOffset[i] == p[i];
        AxisSplitUnique(p[i], chunkShape[i], d.dstChunkKey[i], d.dstOffset[i]);
        AxisSplitUnique(p[i], chunkShape[i], r.dstChunkKey[i], r.dstOffset[i]);
      }
      assert d.dstChunkKey == r.dstChunkKey && d.dstOffset == r.dstOffset;
    }
  }

  /** A grid-aligned part and an in-cell remainder of p are the floor
      division's. */
  lemma AxisSplitUnique(p: int, S: int, k: int, o: int)
    requires S > 0 && k % S == 0 && 0 <= o < S && k + o == p
    ensures k == (p / S) * S && o == p % S
  {
    var m := k / S;
    DivModIdentity(k, S);
    DivModUnique(p, S, m, o);
  }

  /** Periodicity on one axis: moving the source key by k times
      `chunk_shape << delta` on that axis moves the destination key by k
      chunks on that axis and changes nothing else. */
  lemma ForSourceChunkPeriodic(chunkShape: Point, srcChunkKey: Point, lodDelta: U8, axis: nat, k: int)
    requires |chunkShape| == |srcChunkKey| && PowersOfTwo(chunkShape) && axis < |srcChunkKey|
    ensures var r := ForSourceChunk(chunkShape, srcChunkKey, lodDelta);
            var moved := srcChunkKey[axis := srcChunkKey[axis] + k * Shl(chunkShape[axis], lodDelta)];
            var r' := ForSourceChunk(chunkShape, moved, lodDelta);
            && r'.dstOffset == r.dstOffset
            && r'.dstChunkKey == r.dstChunkKey[axis := r.dstChunkKey[axis] + k * chunkShape[axis]]
  {
    var moved := srcChunkKey[axis := srcChunkKey[axis] + k * Shl(chunkShape[axis], lodDelta)];
    ForSourceChunkIsCoarseDestination(chunkShape, srcChunkKey, lodDelta);
    ForSourceChunkIsCoarseDestination(chunkShape, moved, lodDelta);
    AxisPeriodic(srcChunkKey[axis], chunkShape[axis], Pow2(lodDelta), k);
    var r := ForSourceChunk(chunkShape, srcChunkKey, lodDelta);
    var r' := ForSourceChunk(chunkShape, moved, lodDelta);
    assert r'.dstChunkKey == r.dstChunkKey[axis := r.dstChunkKey[axis] + k * chunkShape[axis]];
    assert r'.dstOffset == r.dstOffset;
  }

  /** One axis of the periodicity: adding k * S * D before the division by D
      adds k whole cells of size S after it. */
  lemma AxisPeriodic(x: int, S: int, D: int, k: int)
    requires S > 0 && D > 0
    ensures ((x + k * (S * D)) / D / S) * S == (x / D / S) * S + k * S
    ensures (x + k * (S * D)) / D % S == x / D % S
  {
    var p := x / D;
    DivModIdentity(x, D);
    assert k * (S * D) == (k * S) * D;
    assert x + k * (S * D) == (p + k * S) * D + x % D;
    DivModUnique(x + k * (S * D), D, p + k * S, x % D);
    DivModIdentity(p, S);
    DivModUnique(p + k * S, S, p / S + k, p % S);
    assert (p / S + k) * S == (p / S) * S + k * S;
  }

  /** With no level change, a chunk-aligned key is its own destination and
      the offset is zero. */
  lemma ForSourceChunkSameLevel(chunkShape: Point, srcChunkKey: Point)
    requires |chunkShape| == |srcChunkKey| && PowersOfTwo(chunkShape) && Aligned(srcChunkKey, chunkShape)
    ensures ForSourceChunk(chunkShape, srcChunkKey, 0) == DownsampleDestination(srcChunkKey, Splat(|srcChunkKey|, 0))
  {
    ForSourceChunkIsCoarseDestination(chunkShape, srcChunkKey, 0);
    var r := ForSourceChunk(chunkShape, srcChunkKey, 0);
    forall i | 0 <= i < |srcChunkKey|
      ensures r.dstChunkKey[i] == srcChunkKey[i] && r.dstOffset[i] == 0
    {
      SameLevelAxis(srcChunkKey[i], chunkShape[i]);
    }
    assert r.dstChunkKey == srcChunkKey && r.dstOffset == Splat(|srcChunkKey|, 0);
  }

  lemma SameLevelAxis(x: int, S: int)
    requires S > 0 && x % S == 0
    ensures (Shr(x, 0) / S) * S == x && Shr(x, 0) % S == 0
  {
    assert Shr(x, 0) == x;
    DivModIdentity(x, S);
  }

  /** For a chunk-aligned source key, the region the source chunk covers at
      the destination level (`chunk_shape >> delta` samples from the offset)
      stays inside the destination chunk. */
  lemma FootprintInsideDestination(chunkShape: Point, srcChunkKey: Point, lodDelta: U8)
    requires |chunkShape| == |srcChunkKey| && PowersOfTwo(chunkShape) && Aligned(srcChunkKey, chunkShape)
    ensures var r := ForSourceChunk(chunkShape, srcChunkKey, lodDelta);
            forall i :: 0 <= i < |srcChunkKey| ==> r.dstOffset[i] + Shr(chunkShape[i], lodDelta) <= chunkShape[i]
  {
    ForSourceChunkIsCoarseDestination(chunkShape, srcChunkKey, lodDelta);
    forall i | 0 <= i < |srcChunkKey|
      ensures Shr(srcChunkKey[i], lodDelta) % chunkShape[i] + Shr(chunkShape[i], lodDelta) <= chunkShape[i]
    {
      FootprintAxis(chunkShape[i], srcChunkKey[i], lodDelta);
    }
  }

  lemma FootprintAxis(S: int, x: int, d: nat)
    requires IsPow2(S) && x % S == 0
    ensures (x / Pow2(d)) % S + S / Pow2(d) <= S
  {
    var s := TrailingZeros(S);
    TrailingZerosOfPow2(S);
    if d <= s {
      var G, D := Pow2(s - d), Pow2(d);
      Pow2Add(s - d, d);
      assert G * D == S;
      var m := x / S;
      DivModIdentity(x, S);
      assert m * (G * D) == x;
      FootprintAxisFine(G, D, m);
    } else {
      Pow2Add(s, d - s);
      FootprintAxisCoarse(S, Pow2(d - s), x / Pow2(d));
    }
  }

  /** The case of FootprintAxis where 2^delta = E * S exceeds the chunk: the
      footprint is empty. */
  lemma FootprintAxisCoarse(S: int, E: int, p: int)
    requires S > 0 && E >= 2
    ensures p % S + S / (S * E) <= S
  {
    MulMonotone(2, E, S);
    DivModUnique(S, S * E, 0, S);
  }

  /** The case of FootprintAxis where the chunk S = G * D spans at least
      2^delta samples: the source key m * S lands on a multiple of G. */
  lemma FootprintAxisFine(G: int, D: int, m: int)
    requires G > 0 && D > 0
    ensures (m * (G * D) / D) % (G * D) + (G * D) / D <= G * D
  {
    var q, GD, r := m * G, G * D, m % D;
    assert m * GD == q * D;
    MulDivCancel(q, D);
    assert m * GD / D == q;
    MulDivCancel(G, D);
    assert GD / D == G;
    ScaledRemainder(m, G, D);
    assert q % GD == r * G;
    MulMonotone(r + 1, D, G);
    assert (r + 1) * G == r * G + G;
    assert D * G == GD;
  }

  lemma MulDivCancel(a: int, D: int)
    requires D > 0
    ensures (a * D) / D == a
  {
    DivModUnique(a * D, D, a, 0);
  }

  /** Scaling by G carries the remainder modulo D over to the remainder
      modulo G * D. */
  lemma ScaledRemainder(m: int, G: int, D: int)
    requires G > 0 && D > 0
    ensures (m * G) % (G * D) == (m % D) * G
  {
    var u, v := m / D, m % D;
    DivModIdentity(m, D);
    assert m * G == (u * D + v) * G;
    assert (u * D + v) * G == u * (G * D) + v * G;
    MulMonotone(0, v, G);
    MulMonotone(v, D - 1, G);
    assert (D - 1) * G == G * D - G;
    DivModUnique(m * G, G * D, u, v * G);
  }

  /** The characterization, read as a way to check a claimed destination. */
  lemma ForSourceChunkIs(chunkShape: Point, srcChunkKey: Point, lodDelta: U8, d: DownsampleDestination)
    requires |chunkShape| == |srcChunkKey| == |d.dstChunkKey| == |d.dstOffset| && PowersOfTwo(chunkShape)
    requires Aligned(d.dstChunkKey, chunkShape)
    requires forall i :: 0 <= i < |srcChunkKey| ==> 0 <= d.dstOffset[i] < chunkShape[i]
    requires Add(d.dstChunkKey, d.dstOffset) == ShrScalar(srcChunkKey, lodDelta)
    ensures ForSourceChunk(chunkShape, srcChunkKey, lodDelta) == d
  {
    ForSourceChunkCharacterized(chunkShape, srcChunkKey, lodDelta, d);
  }

  /** A uniform source key under a uniform chunk shape has a uniform
      destination, whatever the dimension. */
  lemma ForSourceChunkUniform(n: nat, S: int, x: int, lodDelta: U8, k: int, o: int)
    requires IsPow2(S) && k % S == 0 && 0 <= o < S && k + o == Shr(x, lodDelta)
    ensures ForSourceChunk(Splat(n, S), Splat(n, x), lodDelta) == DownsampleDestination(Splat(n, k), Splat(n, o))
  {
    var d := DownsampleDestination(Splat(n, k), Splat(n, o));
    assert Add(d.dstChunkKey, d.dstOffset) == ShrScalar(Splat(n, x), lodDelta);
    ForSourceChunkIs(Splat(n, S), Splat(n, x), lodDelta, d);
  }

  /** Test vectors of the source for the chunk shape (16, 16, 16), one level
      up: the source keys are one and two chunk shapes. */
  lemma ForSourceChunkOneLevelUp()
    ensures ForSourceChunk([16, 16, 16], [16, 16, 16], 1) == DownsampleDestination([0, 0, 0], [8, 8, 8])
    ensures ForSourceChunk([16, 16, 16], [32, 32, 32], 1) == DownsampleDestination([16, 16, 16], [0, 0, 0])
  {
    assert IsPow2(16);
    ForSourceChunkUniform(3, 16, 16, 1, 0, 8);
    ForSourceChunkUniform(3, 16, 32, 1, 16, 0);
    assert Splat(3, 16) == [16, 16, 16] && Splat(3, 32) == [32, 32, 32];
    assert Splat(3, 0) == [0, 0, 0] && Splat(3, 8) == [8, 8, 8];
  }

  /** Test vectors of the source for the chunk shape (16, 16, 16), two levels
      up: the source keys are three and four chunk shapes. */
  lemma ForSourceChunkTwoLevelsUp()
    ensures ForSourceChunk([16, 16, 16], [48, 48, 48], 2) == DownsampleDestination([0, 0, 0], [12, 12, 12])
    ensures ForSourceChunk([16, 16, 16], [64, 64, 64], 2) == DownsampleDestination([16, 16, 16], [0, 0, 0])
  {
    assert IsPow2(16);
    ForSourceChunkUniform(3, 16, 48, 2, 0, 12);
    ForSourceChunkUniform(3, 16, 64, 2, 16, 0);
    assert Splat(3, 16) == [16, 16, 16] && Splat(3, 48) == [48, 48, 48] && Splat(3, 64) == [64, 64, 64];
    assert Splat(3, 0) == [0, 0, 0] && Splat(3, 12) == [12, 12, 12];
  }
}
