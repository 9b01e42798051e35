/**
 * One layer of the recursive 2D fills, over a row-major buffer of any
 * element type. A layer walks the rows 0, stride, 2*stride, ... and in each
 * row the columns 0, stride, ...; at each visited cell (i, j) it computes
 * one value and either updates that cell alone (skip == 1) or every cell of
 * the skip-by-skip block whose corner is (i, j), clipped at the right and
 * bottom edges of the buffer.
 *
 * fill_raw_2dnoise8 walks with stride 1 (blocks overlap when skip > 1);
 * fill_raw_2dnoise16 and fill_raw_2dnoise16into8 walk with stride skip
 * (blocks tile the buffer).
 */
module Grid {
  import opened Lib8tion

  /**
   * The parameters of one layer: the buffer shape, the block size, the
   * walk's stride, the value computed at a visited cell, and how a value is
   * combined with a cell's old contents when skip == 1 (single) and when a
   * block is written (blend).
   */
  datatype Pass<!T> = Pass(
    width: int, height: int, skip: int, stride: int,
    value: (int, int) -> T,
    single: (T, T) -> T,
    blend: (T, T) -> T)

  /** A buffer of n elements holds the width-by-height grid (nothing is written when either is not positive). */
  predicate Holds(width: int, height: int, n: int) {
    width <= 0 || height <= 0 || width * height <= n
  }

  /** The buffer of n elements holds the layer's grid, and the walk advances. */
  predicate Fits<T>(L: Pass<T>, n: int) {
    L.stride >= 1 && Holds(L.width, L.height, n)
  }

  /** Row-major position of cell (r, c): the source's pData + r*width + c. */
  function Idx(w: int, r: int, c: int): int {
    r * w + c
  }

  /** Position k lies in rows [r0, r1) and columns [c0, c1) of a grid of width w. */
  predicate In(w: int, k: int, r0: int, r1: int, c0: int, c1: int) {
    w >= 1 && r0 <= k / w < r1 && c0 <= k % w < c1
  }

  /** Every position of a block carries combine applied to its old contents when k is in the region. */
  ghost predicate Pointwise<T>(res: seq<T>, b: seq<T>, w: int, r0: int, r1: int, c0: int, c1: int, combine: (T, T) -> T, v: T) {
    |res| == |b| &&
    forall k :: 0 <= k < |b| ==> res[k] == if In(w, k, r0, r1, c0, c1) then combine(b[k], v) else b[k]
  }

  // ---------------------------------------------------------------------
  // Index arithmetic

  lemma IdxBound(w: int, h: int, r: int, c: int)
    requires 0 <= r < h && 0 <= c < w
    ensures 0 <= Idx(w, r, c) < w * h
  {
    MulMono(w, r + 1, h);
    MulDistrib(r, 1, w);
  }

  lemma IdxRowCol(w: int, r: int, c: int)
    requires w >= 1 && r >= 0 && 0 <= c < w
    ensures Idx(w, r, c) / w == r && Idx(w, r, c) % w == c
  {
    DivModUnique(Idx(w, r, c), w, r, c);
  }

  /** A position is below row n exactly when it precedes n full rows. */
  lemma RowBelow(w: int, k: int, n: int)
    requires w >= 1 && k >= 0
    ensures k < n * w <==> k / w < n
    ensures k == Idx(w, k / w, k % w)
  {
    var q, m := k / w, k % w;
    assert k == w * q + m;
    if q < n {
      MulMono(w, q + 1, n);
    } else {
      MulMono(w, n, q);
    }
  }

  // ---------------------------------------------------------------------
  // The layer as functions over the buffer contents

  /** The inner block loop over columns c.. of row r of the block at column j. */
  function BlockRow<T>(L: Pass<T>, b: seq<T>, r: int, j: int, c: int, v: T): (res: seq<T>)
    requires Fits(L, |b|) && 0 <= r < L.height && 0 <= j <= c
    ensures |res| == |b|
    decreases L.width - c
  {
    if c < j + L.skip && c < L.width then
      IdxBound(L.width, L.height, r, c);
      var k := Idx(L.width, r, c);
      BlockRow(L, b[k := L.blend(b[k], v)], r, j, c + 1, v)
    else b
  }

  /** The block loop over rows r.. of the block with corner (i, j). */
  function Block<T>(L: Pass<T>, b: seq<T>, i: int, j: int, r: int, v: T): (res: seq<T>)
    requires Fits(L, |b|) && 0 <= i <= r && 0 <= j
    ensures |res| == |b|
    decreases L.height - r
  {
    if r < i + L.skip && r < L.height then Block(L, BlockRow(L, b, r, j, j, v), i, j, r + 1, v)
    else b
  }

  /** What a layer does at visited cell (i, j). */
  function Cell<T>(L: Pass<T>, b: seq<T>, i: int, j: int): (res: seq<T>)
    requires Fits(L, |b|) && 0 <= i < L.height && 0 <= j < L.width
    ensures |res| == |b|
  {
    if L.skip == 1 then
      IdxBound(L.width, L.height, i, j);
      var k := Idx(L.width, i, j);
      b[k := L.single(b[k], L.value(i, j))]
    else Block(L, b, i, j, i, L.value(i, j))
  }

  /** The column loop of row i from column j on. */
  function Cols<T>(L: Pass<T>, b: seq<T>, i: int, j: int): (res: seq<T>)
    requires Fits(L, |b|) && 0 <= i < L.height && 0 <= j
    ensures |res| == |b|
    decreases L.width - j
  {
    if j < L.width then Cols(L, Cell(L, b, i, j), i, j + L.stride) else b
  }

  /** The row loop from row i on. */
  function Rows<T>(L: Pass<T>, b: seq<T>, i: int): (res: seq<T>)
    requires Fits(L, |b|) && 0 <= i
    ensures |res| == |b|
    decreases L.height - i
  {
    if i < L.height then Rows(L, Cols(L, b, i, 0), i + L.stride) else b
  }

  /** The operation a layer applies to the cells it writes. */
  function Op<T>(L: Pass<T>): (T, T) -> T {
    if L.skip == 1 then L.single else L.blend
  }

  // ---------------------------------------------------------------------
  // Exact effect of one visited cell: the clipped block, nothing else

  /** One turn of the column walk: once cell j is drawn into after, the rest of the walk goes on from j + s, the stride. */
  lemma ColsStep<T>(L: Pass<T>, b: seq<T>, after: seq<T>, i: int, j: int, s: int)
    requires Fits(L, |b|) && 0 <= i < L.height && 0 <= j < L.width
    requires after == Cell(L, b, i, j) && s == L.stride
    ensures Cols(L, after, i, j + s) == Cols(L, b, i, j)
  {
  }

  /** One turn of the row walk: once row i is drawn into after, the rest of the walk goes on from i + s, the stride. */
  lemma RowsStep<T>(L: Pass<T>, b: seq<T>, after: seq<T>, i: int, s: int)
    requires Fits(L, |b|) && 0 <= i < L.height
    requires after == Cols(L, b, i, 0) && s == L.stride
    ensures Rows(L, after, i + s) == Rows(L, b, i)
  {
  }

  lemma {:induction false} BlockRowExact<T>(L: Pass<T>, b: seq<T>, r: int, j: int, c: int, v: T)
    requires Fits(L, |b|) && L.width >= 1 && 0 <= r < L.height && 0 <= j <= c
    ensures Pointwise(BlockRow(L, b, r, j, c, v), b, L.width, r, r + 1, c, j + L.skip, L.blend, v)
    decreases L.width - c
  {
    var w := L.width;
    if c < j + L.skip && c < w {
      IdxBound(w, L.height, r, c);
      IdxRowCol(w, r, c);
      var k0 := Idx(w, r, c);
      var next := b[k0 := L.blend(b[k0], v)];
      BlockRowExact(L, next, r, j, c + 1, v);
      forall k | 0 <= k < |b|
        ensures BlockRow(L, b, r, j, c, v)[k] == if In(w, k, r, r + 1, c, j + L.skip) then L.blend(b[k], v) else b[k]
      {
        if k != k0 {
          RowBelow(w, k, 0);
        }
      }
    }
  }

  lemma {:induction false} BlockExact<T>(L: Pass<T>, b: seq<T>, i: int, j: int, r: int, v: T)
    requires Fits(L, |b|) && L.width >= 1 && 0 <= i <= r && 0 <= j
    ensures Pointwise(Block(L, b, i, j, r, v), b, L.width, r, Min(i + L.skip, L.height), j, j + L.skip, L.blend, v)
    decreases L.height - r
  {
    var w, h := L.width, L.height;
    if r < i + L.skip && r < h {
      var row := BlockRow(L, b, r, j, j, v);
      BlockRowExact(L, b, r, j, j, v);
      BlockExact(L, row, i, j, r + 1, v);
    }
  }

  /** A visited cell combines its value into exactly the cells of its clipped block. */
  lemma CellExact<T>(L: Pass<T>, b: seq<T>, i: int, j: int)
    requires Fits(L, |b|) && 0 <= i < L.height && 0 <= j < L.width
    ensures Pointwise(Cell(L, b, i, j), b, L.width, i, Min(i + L.skip, L.height), j, j + L.skip, Op(L), L.value(i, j))
  {
    var w := L.width;
    if L.skip == 1 {
      IdxBound(w, L.height, i, j);
      IdxRowCol(w, i, j);
      forall k | 0 <= k < |b|
        ensures Cell(L, b, i, j)[k] == if In(w, k, i, Min(i + 1, L.height), j, j + 1) then L.single(b[k], L.value(i, j)) else b[k]
      {
        RowBelow(w, k, 0);
      }
    } else {
      BlockExact(L, b, i, j, i, L.value(i, j));
    }
  }

  // ---------------------------------------------------------------------
  // Footprints of the loops

  /** The column loop of row i from column j writes only rows i .. i+skip-1 (clipped), columns j and after. */
  lemma {:induction false} ColsFootprint<T>(L: Pass<T>, b: seq<T>, i: int, j: int)
    requires Fits(L, |b|) && L.width >= 1 && 0 <= i < L.height && 0 <= j
    ensures forall k :: 0 <= k < |b| && !In(L.width, k, i, Min(i + Max(L.skip, 1), L.height), j, L.width) ==> Cols(L, b, i, j)[k] == b[k]
    decreases L.width - j
  {
    if j < L.width {
      var next := Cell(L, b, i, j);
      CellExact(L, b, i, j);
      ColsFootprint(L, next, i, j + L.stride);
    }
  }

  /** The row loop from row i writes only rows i and after, inside the grid. */
  lemma {:induction false} RowsFootprint<T>(L: Pass<T>, b: seq<T>, i: int)
    requires Fits(L, |b|) && L.width >= 1 && 0 <= i
    ensures forall k :: 0 <= k < |b| && !In(L.width, k, i, L.height, 0, L.width) ==> Rows(L, b, i)[k] == b[k]
    decreases L.height - i
  {
    if i < L.height {
      var next := Cols(L, b, i, 0);
      ColsFootprint(L, b, i, 0);
      RowsFootprint(L, next, i + L.stride);
    }
  }

  /** A layer changes nothing past the width-by-height grid. */
  lemma LayerFootprint<T>(L: Pass<T>, b: seq<T>)
    requires Fits(L, |b|)
    ensures forall k :: 0 <= k < |b| && (L.width <= 0 || L.height <= 0 || k >= L.width * L.height) ==> Rows(L, b, 0)[k] == b[k]
  {
    if L.width >= 1 {
      RowsFootprint(L, b, 0);
      forall k | 0 <= k < |b| && k >= L.width * L.height
        ensures !In(L.width, k, 0, L.height, 0, L.width)
      {
        RowBelow(L.width, k, L.height);
      }
    } else {
      DegenerateRows(L, b, 0);
    }
  }

  /** With no columns, no row loop writes anything. */
  lemma {:induction false} DegenerateRows<T>(L: Pass<T>, b: seq<T>, i: int)
    requires Fits(L, |b|) && L.width <= 0 && 0 <= i
    ensures Rows(L, b, i) == b
    decreases L.height - i
  {
    if i < L.height {
      DegenerateRows(L, b, i + L.stride);
    }
  }

  // ---------------------------------------------------------------------
  // A layer reads each cell only to update that cell

  lemma {:induction false} ColsLocal<T>(L: Pass<T>, b1: seq<T>, b2: seq<T>, i: int, j: int, k: int)
    requires Fits(L, |b1|) && |b1| == |b2| && 0 <= i < L.height && 0 <= j && 0 <= k < |b1| && b1[k] == b2[k]
    ensures Cols(L, b1, i, j)[k] == Cols(L, b2, i, j)[k]
    decreases L.width - j
  {
    if j < L.width {
      CellExact(L, b1, i, j);
      CellExact(L, b2, i, j);
      ColsLocal(L, Cell(L, b1, i, j), Cell(L, b2, i, j), i, j + L.stride, k);
    }
  }

  /** The new contents of a cell depend on its old contents only. */
  lemma {:induction false} RowsLocal<T>(L: Pass<T>, b1: seq<T>, b2: seq<T>, i: int, k: int)
    requires Fits(L, |b1|) && |b1| == |b2| && 0 <= i && 0 <= k < |b1| && b1[k] == b2[k]
    ensures Rows(L, b1, i)[k] == Rows(L, b2, i)[k]
    decreases L.height - i
  {
    if i < L.height {
      ColsLocal(L, b1, b2, i, 0, k);
      RowsLocal(L, Cols(L, b1, i, 0), Cols(L, b2, i, 0), i + L.stride, k);
    }
  }

  // ---------------------------------------------------------------------
  // A layer whose combination ignores the old contents overwrites the grid

  /** single and blend return the same as for any other old contents. */
  ghost predicate Overwrites<T(!new)>(L: Pass<T>) {
    forall a: T, v: T :: L.single(a, v) == L.single(v, v) && L.blend(a, v) == L.blend(v, v)
  }

  /** The walk reaches every cell: blocks of at least one cell, at most one stride apart. */
  predicate Covers<T>(L: Pass<T>) {
    L.skip >= 1 && (L.stride == 1 || L.stride == L.skip)
  }

  lemma {:induction false} ColsOverwrite<T(!new)>(L: Pass<T>, b1: seq<T>, b2: seq<T>, i: int, j: int)
    requires Fits(L, |b1|) && |b1| == |b2| && L.width >= 1 && 0 <= i < L.height && 0 <= j
    requires Covers(L) && Overwrites(L)
    ensures forall k :: 0 <= k < |b1| && In(L.width, k, i, Min(i + L.stride, L.height), j, L.width) ==> Cols(L, b1, i, j)[k] == Cols(L, b2, i, j)[k]
    decreases L.width - j
  {
    if j < L.width {
      var n1, n2 := Cell(L, b1, i, j), Cell(L, b2, i, j);
      CellExact(L, b1, i, j);
      CellExact(L, b2, i, j);
      ColsOverwrite(L, n1, n2, i, j + L.stride);
      ColsFootprint(L, n1, i, j + L.stride);
      ColsFootprint(L, n2, i, j + L.stride);
    }
  }

  lemma {:induction false} RowsOverwrite<T(!new)>(L: Pass<T>, b1: seq<T>, b2: seq<T>, i: int)
    requires Fits(L, |b1|) && |b1| == |b2| && L.width >= 1 && 0 <= i
    requires Covers(L) && Overwrites(L)
    ensures forall k :: 0 <= k < |b1| && In(L.width, k, i, L.height, 0, L.width) ==> Rows(L, b1, i)[k] == Rows(L, b2, i)[k]
    decreases L.height - i
  {
    if i < L.height {
      var n1, n2 := Cols(L, b1, i, 0), Cols(L, b2, i, 0);
      ColsOverwrite(L, b1, b2, i, 0);
      RowsOverwrite(L, n1, n2, i + L.stride);
      RowsFootprint(L, n1, i + L.stride);
      RowsFootprint(L, n2, i + L.stride);
    }
  }

  /**
   * A covering layer that ignores the old contents leaves every grid cell
   * the same whatever the buffer held before.
   */
  lemma LayerOverwrites<T(!new)>(L: Pass<T>, b1: seq<T>, b2: seq<T>)
    requires Fits(L, |b1|) && |b1| == |b2| && Covers(L) && Overwrites(L)
    ensures L.width >= 1 ==> forall k :: 0 <= k < L.width * L.height && k < |b1| ==> Rows(L, b1, 0)[k] == Rows(L, b2, 0)[k]
  {
    if L.width >= 1 {
      RowsOverwrite(L, b1, b2, 0);
      forall k | 0 <= k < L.width * L.height && k < |b1|
        ensures In(L.width, k, 0, L.height, 0, L.width)
      {
        RowBelow(L.width, k, L.height);
      }
    }
  }

  // ---------------------------------------------------------------------
  // A tiling layer (stride == skip) writes each cell exactly once

  /** The corner of the tile of size s holding coordinate a. */
  function TileStart(s: int, a: int): int
    requires s >= 1
  {
    a - a % s
  }

  lemma TileOf(s: int, t: int, d: int)
    requires s >= 1 && 0 <= d < s
    ensures TileStart(s, s * t + d) == s * t
    ensures (s * t + s) % s == 0
  {
    DivModUnique(s * t + d, s, t, d);
    DivModUnique(s * t + s, s, t + 1, 0);
  }

  lemma {:induction false} ColsTiled<T>(L: Pass<T>, b: seq<T>, i: int, j: int)
    requires Fits(L, |b|) && L.width >= 1 && 0 <= i < L.height && 0 <= j
    requires L.skip >= 1 && L.stride == L.skip && j % L.skip == 0
    ensures |Cols(L, b, i, j)| == |b|
    ensures forall k :: 0 <= k < |b| ==> Cols(L, b, i, j)[k] == (if In(L.width, k, i, Min(i + L.skip, L.height), j, L.width) then Op(L)(b[k], L.value(i, TileStart(L.skip, k % L.width))) else b[k])
    decreases L.width - j
  {
    var w, s := L.width, L.skip;
    if j < w {
      var next := Cell(L, b, i, j);
      CellExact(L, b, i, j);
      var t := j / s;
      assert j == s * t;
      TileOf(s, t, 0);
      ColsTiled(L, next, i, j + s);
      forall k | 0 <= k < |b| && In(w, k, i, Min(i + s, L.height), j, j + s)
        ensures TileStart(s, k % w) == j
      {
        TileOf(s, t, k % w - j);
      }
    }
  }

  lemma {:induction false} RowsTiled<T>(L: Pass<T>, b: seq<T>, i: int)
    requires Fits(L, |b|) && L.width >= 1 && 0 <= i
    requires L.skip >= 1 && L.stride == L.skip && i % L.skip == 0
    ensures |Rows(L, b, i)| == |b|
    ensures forall k :: 0 <= k < |b| ==> Rows(L, b, i)[k] == (if In(L.width, k, i, L.height, 0, L.width) then Op(L)(b[k], L.value(TileStart(L.skip, k / L.width), TileStart(L.skip, k % L.width))) else b[k])
    decreases L.height - i
  {
    var w, s := L.width, L.skip;
    if i < L.height {
      var next := Cols(L, b, i, 0);
      ColsTiled(L, b, i, 0);
      var t := i / s;
      assert i == s * t;
      TileOf(s, t, 0);
      RowsTiled(L, next, i + s);
      forall k | 0 <= k < |b| && In(w, k, i, Min(i + s, L.height), 0, w)
        ensures TileStart(s, k / w) == i && TileStart(s, k % w) == k % w - k % w % s
      {
        TileOf(s, t, k / w - i);
      }
    }
  }

  /**
   * A tiling layer: cell (r, c) of the grid is combined exactly once, with
   * the value computed at the corner of the skip-by-skip tile holding it.
   */
  lemma LayerTiled<T>(L: Pass<T>, b: seq<T>, r: int, c: int)
    requires Fits(L, |b|) && L.skip >= 1 && L.stride == L.skip
    requires 0 <= r < L.height && 0 <= c < L.width
    ensures 0 <= Idx(L.width, r, c) < |b|
    ensures Rows(L, b, 0)[Idx(L.width, r, c)] == Op(L)(b[Idx(L.width, r, c)], L.value(r - r % L.skip, c - c % L.skip))
  {
    IdxBound(L.width, L.height, r, c);
    IdxRowCol(L.width, r, c);
    RowsTiled(L, b, 0);
  }

  /** The layer's blocks tile a buffer of n elements: the walk advances one block at a time. */
  predicate Tiled<T>(L: Pass<T>, n: int) {
    Fits(L, n) && L.skip >= 1 && L.stride == L.skip
  }

  /** Cell (r, c) lies on the layer's grid. */
  predicate OnGrid<T>(L: Pass<T>, r: int, c: int) {
    0 <= r < L.height && 0 <= c < L.width
  }

  /** LayerTiled, for a caller that already knows the cell's index k and its tile's value v. */
  lemma LayerTiledAt<T>(L: Pass<T>, b: seq<T>, r: int, c: int, k: int, v: T)
    requires Tiled(L, |b|) && OnGrid(L, r, c)
    requires k == Idx(L.width, r, c) && v == L.value(r - r % L.skip, c - c % L.skip)
    ensures 0 <= k < |b| && Rows(L, b, 0)[k] == Op(L)(b[k], v)
  {
    LayerTiled(L, b, r, c);
  }

  // ---------------------------------------------------------------------
  // The work at one visited cell, in place

  /**
   * Combine v, the value computed at visited cell (i, j), into that cell
   * (skip == 1) or into its block, clipped at the buffer's right and bottom
   * edges.
   */
  method WriteCell<T>(L: Pass<T>, data: array<T>, i: int, j: int, v: T)
    requires Fits(L, data.Length) && 0 <= i < L.height && 0 <= j < L.width && v == L.value(i, j)
    modifies data
    ensures data[..] == Cell(L, old(data[..]), i, j)
  {
    var w := L.width;
    if L.skip == 1 {
      IdxBound(w, L.height, i, j);
      data[i * w + j] := L.single(data[i * w + j], v);
    } else {
      var ii := i;
      while ii < i + L.skip && ii < L.height
        invariant i <= ii
        invariant Block(L, data[..], i, j, ii, v) == Block(L, old(data[..]), i, j, i, v)
        decreases L.height - ii
      {
        ghost var rowStart := data[..];
        var jj := j;
        while jj < j + L.skip && jj < w
          invariant j <= jj
          invariant BlockRow(L, data[..], ii, j, jj, v) == BlockRow(L, rowStart, ii, j, j, v)
          decreases w - jj
        {
          IdxBound(w, L.height, ii, jj);
          data[ii * w + jj] := L.blend(data[ii * w + jj], v);
          jj := jj + 1;
        }
        ii := ii + 1;
      }
    }
  }
}
