/**
 * The parameters of one layer of a hierarchy, fixed when the hierarchy is
 * created, and the geometry of a chunk: a square of chunkSize by chunkSize
 * cells of which exactly one is active.
 */
module LayerDescs {
  import opened Arith

  /** Configuration of a layer. The learning rates are stored as reals; nothing is proved about them. */
  datatype LayerDesc = LayerDesc(
    width: int, height: int,
    chunkSize: int,
    forwardRadius: int, backwardRadius: int,
    ticksPerUpdate: int,
    temporalHorizon: int,
    alpha: real, beta: real, delta: real, gamma: real, traceCutoff: real, epsilon: real)

  /**
   * What a hierarchy needs of a layer's parameters: the clock divisor is at
   * least one, and the temporal horizon is at least the divisor.
   */
  predicate ValidDesc(d: LayerDesc)
  {
    d.ticksPerUpdate >= 1 && d.temporalHorizon >= d.ticksPerUpdate
  }

  /** The default parameters: a 36 by 36 layer of chunks of diameter 6, updating on every second tick. */
  function DefaultLayerDesc(): (d: LayerDesc)
    ensures ValidDesc(d)
    ensures d.temporalHorizon == d.ticksPerUpdate == 2
    ensures CellsPerChunk(d.chunkSize) == 36
    ensures ChunkCount(d.width, d.height, d.chunkSize) == 36
  {
    LayerDesc(36, 36, 6, 9, 9, 2, 2, 0.01, 0.05, 0.0, 0.99, 0.01, 0.01)
  }

  /** chunkSize is a diameter, so a chunk has chunkSize * chunkSize cells. */
  function CellsPerChunk(chunkSize: int): int
  {
    chunkSize * chunkSize
  }

  /** The index of the cell in column x and row y of a chunk. */
  function CellIndex(x: int, y: int, chunkSize: int): (j: int)
    requires 0 <= x < chunkSize && 0 <= y < chunkSize
    ensures 0 <= j < CellsPerChunk(chunkSize)
  {
    MulLess(y, chunkSize);
    y * chunkSize + x
  }

  /** The column and row of cell j of a chunk. */
  function CellAt(j: int, chunkSize: int): (p: (int, int))
    requires chunkSize >= 1 && 0 <= j < CellsPerChunk(chunkSize)
    ensures 0 <= p.0 < chunkSize && 0 <= p.1 < chunkSize
    ensures CellIndex(p.0, p.1, chunkSize) == j
  {
    DivLess(j, chunkSize);
    (j % chunkSize, j / chunkSize)
  }

  /** Every (column, row) pair of a chunk is named by exactly one cell index. */
  lemma CellRoundTrip(x: int, y: int, chunkSize: int)
    requires 0 <= x < chunkSize && 0 <= y < chunkSize
    ensures CellAt(CellIndex(x, y, chunkSize), chunkSize) == (x, y)
  {
    var j := CellIndex(x, y, chunkSize);
    DivModUnique(j, chunkSize, y, x);
  }

  /** A winner-take-all code: one cell index of the chunk per chunk. */
  predicate IsChunkCode(v: seq<int>, chunkSize: int)
  {
    forall k :: 0 <= k < |v| ==> 0 <= v[k] < CellsPerChunk(chunkSize)
  }

  /**
   * The number of chunks of a width by height grid of cells split into
   * chunks of diameter chunkSize (zero when the sizes are not positive).
   */
  function ChunkCount(width: int, height: int, chunkSize: int): (n: nat)
    ensures chunkSize >= 1 && width >= chunkSize && height >= chunkSize ==> n >= 1
  {
    if chunkSize >= 1 && width >= 0 && height >= 0 then
      var cols, rows := width / chunkSize, height / chunkSize;
      MulAtLeastOne(cols, rows);
      cols * rows
    else 0
  }

  /** A code of all zeros, the initial content of a history slot. */
  function ZeroCode(n: nat): (v: seq<int>)
    ensures |v| == n
  {
    seq(n, _ => 0)
  }

  /**
   * The all-zero code of a grid's chunks is a valid code for that chunk
   * size; with no chunk cell at all there are no chunks and the code is empty.
   */
  lemma ZeroCodeIsCode(width: int, height: int, chunkSize: int)
    ensures IsChunkCode(ZeroCode(ChunkCount(width, height, chunkSize)), chunkSize)
  {
    if chunkSize >= 1 {
      MulLess(0, chunkSize);
    }
  }

  // ---------------------------------------------------------------------
  // Arithmetic helpers

  lemma MulLess(y: int, c: int)
    requires 0 <= y < c
    ensures y * c + c <= c * c
  {
    assert y * c + c == (y + 1) * c;
    assert (y + 1) * c <= c * c;
  }

  lemma DivLess(j: int, c: int)
    requires c >= 1 && 0 <= j < c * c
    ensures 0 <= j / c < c
  {
    if j / c >= c {
      assert j >= (j / c) * c;
      MulMono(c, j / c, c);
    }
  }

  lemma MulAtLeastOne(a: int, b: int)
    requires a >= 0 && b >= 0
    ensures a * b >= 0 && (a >= 1 && b >= 1 ==> a * b >= 1)
  {
  }
}
