/**
 * The block-sampling step of the progressive mosaic, stated on values.
 *
 * The canvas and a source frame are row-major RGBA buffers of WIDTH x HEIGHT
 * pixels. One pass draws a square edge length and then a number of
 * grid-aligned origins, and copies each square's pixels from the source into
 * the canvas byte by byte. This module defines which bytes one square copies
 * (`Copies`), the buffer after one square (`CopySquare`) and after several
 * (`CopySquares`), and the squares a pass draws from the random stream
 * (`PassSquares`); the class in module Renderer is proved to compute exactly
 * these.
 */
module Mosaic {
  import opened VideoCapture

  const BYTES_PER_PIXEL: nat := 4
  /** The byte length of one frame, and of the canvas. */
  const FRAME_SIZE: nat := WIDTH * HEIGHT * BYTES_PER_PIXEL
  /** How many squares one pass copies. */
  const SQUARES_PER_UPDATE: nat := 20
  /** The inclusive range the square edge length is drawn from. */
  const MIN_SQUARE_SIZE: nat := 6
  const MAX_SQUARE_SIZE: nat := 128
  /** Origins are snapped down to multiples of this many pixels. */
  const ALIGNMENT: nat := 32
  /** Random draws one pass consumes: the size, then an x and a y per square. */
  const DRAWS_PER_PASS: nat := 1 + 2 * SQUARES_PER_UPDATE

  /** One copied region: origin pixel (x, y) and edge length `size`. */
  datatype Square = Square(x: nat, y: nat, size: nat)

  /** The square edge length drawn from one raw random value (any value of the range). */
  function SquareSize(raw: nat): (s: nat)
    ensures MIN_SQUARE_SIZE <= s <= MAX_SQUARE_SIZE
    ensures raw <= MAX_SQUARE_SIZE - MIN_SQUARE_SIZE ==> s == MIN_SQUARE_SIZE + raw
  {
    MIN_SQUARE_SIZE + raw % (MAX_SQUARE_SIZE - MIN_SQUARE_SIZE + 1)
  }

  /** Clearing the low five bits of `v`: the largest multiple of ALIGNMENT not above `v`. */
  function AlignDown(v: nat): (r: nat)
    ensures r % ALIGNMENT == 0
    ensures r <= v < r + ALIGNMENT
  {
    v - v % ALIGNMENT
  }

  /**
   * One origin coordinate: a raw random value reduced modulo `dim - size`
   * and aligned down. The result stays strictly below `dim - size`.
   */
  function Origin(raw: nat, dim: nat, size: nat): (r: nat)
    requires size < dim
    ensures r % ALIGNMENT == 0
    ensures r + size < dim
  {
    AlignDown(raw % (dim - size))
  }

  /** A square as a pass places it: aligned, of a drawable size, and strictly inside the canvas. */
  predicate Placed(q: Square) {
    && MIN_SQUARE_SIZE <= q.size <= MAX_SQUARE_SIZE
    && q.x % ALIGNMENT == 0 && q.y % ALIGNMENT == 0
    && q.x + q.size < WIDTH && q.y + q.size < HEIGHT
  }

  /**
   * Square `k` of the pass that starts at position `pos` of the random
   * stream: the pass's size is the draw at `pos`, and the square's x and y
   * are the two draws after those of the squares before it.
   */
  function PassSquare(stream: nat -> nat, pos: nat, k: nat): (q: Square)
    ensures Placed(q)
  {
    var s := SquareSize(stream(pos));
    Square(Origin(stream(pos + 1 + 2 * k), WIDTH, s), Origin(stream(pos + 2 + 2 * k), HEIGHT, s), s)
  }

  /** The first `n` squares of the pass that starts at position `pos`, in drawing order. */
  function PassPrefix(stream: nat -> nat, pos: nat, n: nat): (qs: seq<Square>)
    ensures |qs| == n
    ensures forall k :: 0 <= k < n ==> qs[k] == PassSquare(stream, pos, k)
  {
    if n == 0 then [] else PassPrefix(stream, pos, n - 1) + [PassSquare(stream, pos, n - 1)]
  }

  /** The squares of the pass that starts at position `pos` of the random stream. */
  function PassSquares(stream: nat -> nat, pos: nat): (qs: seq<Square>)
    ensures |qs| == SQUARES_PER_UPDATE
    ensures forall k :: 0 <= k < |qs| ==> Placed(qs[k]) && qs[k].size == qs[0].size
  {
    PassPrefix(stream, pos, SQUARES_PER_UPDATE)
  }

  /** The row-major index of pixel (col, row). */
  function PixelIndex(col: nat, row: nat): nat {
    row * WIDTH + col
  }

  /**
   * Byte `i` belongs to a pixel of square `q` that lies in one of its first
   * `rows` rows, or in row `rows` left of column `cols`: the part of the
   * square a row-by-row copy has reached.
   */
  predicate InBlockPrefix(q: Square, i: nat, rows: nat, cols: nat) {
    var p := i / BYTES_PER_PIXEL;
    var row := p / WIDTH;
    var col := p % WIDTH;
    && q.x <= col < q.x + q.size
    && q.y <= row
    && (row < q.y + rows || (row == q.y + rows && col < q.x + cols))
  }

  /** Extending the reached part of a row by one column adds exactly the bytes of that pixel. */
  lemma PrefixStep(q: Square, i: nat, rows: nat, cols: nat)
    requires q.x + q.size <= WIDTH && cols < q.size
    ensures InBlockPrefix(q, i, rows, cols + 1)
            <==> InBlockPrefix(q, i, rows, cols) || i / BYTES_PER_PIXEL == PixelIndex(q.x + cols, q.y + rows)
  {
  }

  /** A finished row is the start of the next one. */
  lemma PrefixRow(q: Square, i: nat, rows: nat)
    ensures InBlockPrefix(q, i, rows, q.size) <==> InBlockPrefix(q, i, rows + 1, 0)
  {
  }

  /** Byte `i` belongs to a pixel of square `q`. */
  predicate InBlock(q: Square, i: nat) {
    InBlockPrefix(q, i, q.size, 0)
  }

  /** The bounds guard of the copy: the last byte of `i`'s pixel exists in both buffers. */
  predicate Guarded(i: nat, sourceLen: nat, canvasLen: nat) {
    var first := i / BYTES_PER_PIXEL * BYTES_PER_PIXEL;
    first + 3 < sourceLen && first + 3 < canvasLen
  }

  /** Copying square `q` writes byte `i`. */
  predicate Copies(q: Square, i: nat, sourceLen: nat, canvasLen: nat) {
    InBlock(q, i) && Guarded(i, sourceLen, canvasLen)
  }

  /** Some square of `qs` writes byte `i`. */
  predicate CopiedBy(qs: seq<Square>, i: nat, sourceLen: nat, canvasLen: nat) {
    exists k :: 0 <= k < |qs| && Copies(qs[k], i, sourceLen, canvasLen)
  }

  /** The canvas after copying square `q` from `source`. */
  function CopySquare(canvas: seq<byte>, source: seq<byte>, q: Square): (r: seq<byte>)
    ensures |r| == |canvas|
  {
    seq(|canvas|, i requires 0 <= i < |canvas| =>
      if Copies(q, i, |source|, |canvas|) then source[i] else canvas[i])
  }

  /** The canvas after copying the squares of `qs` in order; later squares overwrite earlier ones. */
  function CopySquares(canvas: seq<byte>, source: seq<byte>, qs: seq<Square>): (r: seq<byte>)
    ensures |r| == |canvas|
    decreases |qs|
  {
    if qs == [] then canvas
    else CopySquare(CopySquares(canvas, source, qs[..|qs| - 1]), source, qs[|qs| - 1])
  }

  /** Copying one more square after a run is one more CopySquare. */
  lemma CopySquaresSnoc(canvas: seq<byte>, source: seq<byte>, qs: seq<Square>, q: Square)
    ensures CopySquares(canvas, source, qs + [q]) == CopySquare(CopySquares(canvas, source, qs), source, q)
  {
    assert (qs + [q])[..|qs|] == qs;
  }

  /**
   * After a run of squares, a byte some square wrote holds the source byte at
   * the same index, and every other byte is what it was.
   */
  lemma {:induction false} CopySquaresAt(canvas: seq<byte>, source: seq<byte>, qs: seq<Square>, i: nat)
    requires i < |canvas|
    ensures CopiedBy(qs, i, |source|, |canvas|) ==> i < |source|
    ensures CopySquares(canvas, source, qs)[i]
            == if CopiedBy(qs, i, |source|, |canvas|) then source[i] else canvas[i]
  {
    if qs != [] {
      var init := qs[..|qs| - 1];
      var last := qs[|qs| - 1];
      CopySquaresAt(canvas, source, init, i);
      if CopiedBy(qs, i, |source|, |canvas|) && !Copies(last, i, |source|, |canvas|) {
        var k :| 0 <= k < |qs| && Copies(qs[k], i, |source|, |canvas|);
        assert init[k] == qs[k];
      }
      if CopiedBy(init, i, |source|, |canvas|) {
        var k :| 0 <= k < |init| && Copies(init[k], i, |source|, |canvas|);
        assert qs[k] == init[k];
      }
    }
  }

  /** Every byte of a pixel of a placed square exists in a frame-sized buffer. */
  lemma PlacedSquareInCanvas(q: Square, dx: nat, dy: nat, c: nat)
    requires Placed(q) && dx < q.size && dy < q.size && c < BYTES_PER_PIXEL
    ensures PixelIndex(q.x + dx, q.y + dy) * BYTES_PER_PIXEL + c < FRAME_SIZE
  {
    assert q.y + dy + 1 <= HEIGHT;
    assert PixelIndex(q.x + dx, q.y + dy) < (q.y + dy + 1) * WIDTH;
  }

  /** For frame-sized buffers the bounds guard never skips a byte. */
  lemma FullFrameGuard(i: nat)
    requires i < FRAME_SIZE
    ensures Guarded(i, FRAME_SIZE, FRAME_SIZE)
  {
  }

  /**
   * The render path: one pass with a frame-sized source over a frame-sized
   * canvas copies exactly the bytes of the pass's squares from the source and
   * leaves every other byte as it was.
   */
  lemma PassOverFullFrame(canvas: seq<byte>, source: seq<byte>, stream: nat -> nat, pos: nat, i: nat)
    requires |canvas| == FRAME_SIZE && |source| == FRAME_SIZE && i < FRAME_SIZE
    ensures CopySquares(canvas, source, PassSquares(stream, pos))[i]
            == if exists k :: 0 <= k < SQUARES_PER_UPDATE && InBlock(PassSquares(stream, pos)[k], i)
               then source[i] else canvas[i]
  {
    var qs := PassSquares(stream, pos);
    CopySquaresAt(canvas, source, qs, i);
    FullFrameGuard(i);
  }
}
