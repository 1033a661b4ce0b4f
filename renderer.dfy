/**
 * The CPU side of the mosaic renderer: the persistent canvas, the update
 * timer and frame counter, and the random stream that places the squares.
 *
 * Time is a count of nanoseconds on the monotonic clock, passed in where the
 * original reads `Instant::now()`. The seeded generator is an infinite stream
 * of natural numbers together with the position of the next draw; each draw
 * consumes one element.
 */
module Renderer {
  import opened Options
  import opened VideoCapture
  import opened Mosaic

  /** The mosaic's update interval, 200 ms, in nanoseconds. */
  const UPDATE_INTERVAL: nat := 200_000_000

  /** Time from `since` to `now`, zero when `now` is earlier (saturating, as `duration_since` is). */
  function Elapsed(since: nat, now: nat): (d: nat)
    ensures since <= now ==> since + d == now
    ensures now < since ==> d == 0
  {
    if since <= now then now - since else 0
  }

  /** Whether a tick at `now` is past the update interval since `last`. */
  predicate Due(last: nat, now: nat)
    ensures Due(last, now) <==> last + UPDATE_INTERVAL <= now
  {
    Elapsed(last, now) >= UPDATE_INTERVAL
  }

  class VideoRenderer {
    /** The slot the capture pipeline publishes frames into. */
    const sharedFrame: SharedFrame
    /** The persistent CPU canvas; it is patched, never replaced. */
    const mosaicBuffer: array<byte>
    var frameCounter: nat
    var lastUpdate: nat
    /** The seeded generator's output and the position of its next draw. */
    const stream: nat -> nat
    var rngPos: nat
    /** Configured, but the pass draws its own size instead. */
    const squareSize: nat
    const squaresPerUpdate: nat
    const updateInterval: nat

    ghost predicate Valid()
      reads this
    {
      && mosaicBuffer.Length == FRAME_SIZE
      && squaresPerUpdate == SQUARES_PER_UPDATE
      && updateInterval == UPDATE_INTERVAL
    }

    /** A zeroed frame-sized canvas, a zero counter and the timer started at `now`. */
    constructor (sharedFrame: SharedFrame, now: nat, stream: nat -> nat)
      ensures Valid() && fresh(mosaicBuffer)
      ensures this.sharedFrame == sharedFrame && this.stream == stream
      ensures forall i :: 0 <= i < mosaicBuffer.Length ==> mosaicBuffer[i] == 0
      ensures frameCounter == 0 && lastUpdate == now && rngPos == 0
      ensures squareSize == 32
    {
      this.sharedFrame := sharedFrame;
      mosaicBuffer := new byte[FRAME_SIZE](_ => 0);
      frameCounter := 0;
      lastUpdate := now;
      this.stream := stream;
      rngPos := 0;
      squareSize := 32;
      squaresPerUpdate := SQUARES_PER_UPDATE;
      updateInterval := UPDATE_INTERVAL;
    }

    /**
     * The timer: before the interval has passed nothing changes; otherwise
     * the timer restarts at `now` and the counter goes up by one. It touches
     * neither the canvas nor the frame slot.
     */
    method Update(now: nat)
      requires Valid()
      modifies this`lastUpdate, this`frameCounter
      ensures !Due(old(lastUpdate), now) ==> lastUpdate == old(lastUpdate) && frameCounter == old(frameCounter)
      ensures Due(old(lastUpdate), now) ==> lastUpdate == now && frameCounter == old(frameCounter) + 1
    {
      var last := lastUpdate;
      if Elapsed(last, now) < updateInterval {
        return;
      }
      lastUpdate := now;
      var currentCount := frameCounter;
      frameCounter := currentCount + 1;
    }

    /** One draw from the generator. */
    method NextRandom() returns (v: nat)
      modifies this`rngPos
      ensures v == stream(old(rngPos)) && rngPos == old(rngPos) + 1
    {
      v := stream(rngPos);
      rngPos := rngPos + 1;
    }

    /** Copies the four bytes of the pixel starting at `pixelIdx`, when both buffers hold them. */
    method CopyPixel(source: seq<byte>, pixelIdx: nat)
      modifies mosaicBuffer
      ensures forall i :: 0 <= i < mosaicBuffer.Length ==>
        mosaicBuffer[i] == if pixelIdx <= i < pixelIdx + 4 && pixelIdx + 3 < |source| && pixelIdx + 3 < mosaicBuffer.Length
                           then source[i] else old(mosaicBuffer[i])
    {
      if pixelIdx + 3 < |source| && pixelIdx + 3 < mosaicBuffer.Length {
        mosaicBuffer[pixelIdx] := source[pixelIdx];         // R
        mosaicBuffer[pixelIdx + 1] := source[pixelIdx + 1]; // G
        mosaicBuffer[pixelIdx + 2] := source[pixelIdx + 2]; // B
        mosaicBuffer[pixelIdx + 3] := source[pixelIdx + 3]; // A
      }
    }

    /** Copies row `dy` of square `q`, left to right. */
    method CopyRow(source: seq<byte>, q: Square, dy: nat)
      requires q.x + q.size <= WIDTH
      modifies mosaicBuffer
      ensures forall i :: 0 <= i < mosaicBuffer.Length ==>
        mosaicBuffer[i] == if InBlockPrefix(q, i, dy + 1, 0) && !InBlockPrefix(q, i, dy, 0)
                              && Guarded(i, |source|, mosaicBuffer.Length)
                           then source[i] else old(mosaicBuffer[i])
    {
      var width := WIDTH;
      var dx := 0;
      while dx < q.size
        invariant dx <= q.size
        invariant forall i :: 0 <= i < mosaicBuffer.Length ==>
          mosaicBuffer[i] == if InBlockPrefix(q, i, dy, dx) && !InBlockPrefix(q, i, dy, 0)
                                && Guarded(i, |source|, mosaicBuffer.Length)
                             then source[i] else old(mosaicBuffer[i])
      {
        var pixelIdx := ((q.y + dy) * width + (q.x + dx)) * 4;
        CopyPixel(source, pixelIdx);
        forall i | 0 <= i < mosaicBuffer.Length
          ensures InBlockPrefix(q, i, dy, dx + 1)
                  <==> InBlockPrefix(q, i, dy, dx) || pixelIdx <= i < pixelIdx + 4
          ensures pixelIdx <= i < pixelIdx + 4 ==> i / BYTES_PER_PIXEL * BYTES_PER_PIXEL == pixelIdx
        {
          PrefixStep(q, i, dy, dx);
        }
        dx := dx + 1;
      }
      forall i | 0 <= i < mosaicBuffer.Length
        ensures InBlockPrefix(q, i, dy, q.size) <==> InBlockPrefix(q, i, dy + 1, 0)
      {
        PrefixRow(q, i, dy);
      }
    }

    /**
     * Copies the pixels of square `q` from `source` into the canvas, row by
     * row, skipping a pixel whose last byte is missing from either buffer.
     */
    method CopyBlock(source: seq<byte>, q: Square)
      requires q.x + q.size <= WIDTH
      modifies mosaicBuffer
      ensures mosaicBuffer[..] == CopySquare(old(mosaicBuffer[..]), source, q)
    {
      var dy := 0;
      while dy < q.size
        invariant dy <= q.size
        invariant forall i :: 0 <= i < mosaicBuffer.Length ==>
          mosaicBuffer[i] == if InBlockPrefix(q, i, dy, 0) && Guarded(i, |source|, mosaicBuffer.Length)
                             then source[i] else old(mosaicBuffer[i])
      {
        CopyRow(source, q, dy);
        forall i | 0 <= i < mosaicBuffer.Length
          ensures InBlockPrefix(q, i, dy, 0) ==> InBlockPrefix(q, i, dy + 1, 0)
        {
          PrefixRow(q, i, dy);
        }
        dy := dy + 1;
      }
    }

    /**
     * One pass: draws a square size, then for each of the squares an x and a
     * y origin, and copies that square from `source` into the canvas.
     */
    method UpdateRandomSquares(source: seq<byte>)
      requires Valid()
      modifies mosaicBuffer, this`rngPos
      ensures mosaicBuffer[..] == CopySquares(old(mosaicBuffer[..]), source, PassSquares(stream, old(rngPos)))
      ensures rngPos == old(rngPos) + DRAWS_PER_PASS
    {
      ghost var start, pos := mosaicBuffer[..], rngPos;
      var raw := NextRandom();
      var size := SquareSize(raw);
      var n := 0;
      while n < squaresPerUpdate
        invariant n <= squaresPerUpdate
        invariant rngPos == pos + 1 + 2 * n
        invariant mosaicBuffer[..] == CopySquares(start, source, PassPrefix(stream, pos, n))
      {
        CopyNextSquare(source, size, pos, n);
        CopySquaresSnoc(start, source, PassPrefix(stream, pos, n), PassSquare(stream, pos, n));
        n := n + 1;
      }
    }

    /** Draws the x and y origin of square `n` of the pass that started at `pos`, and copies that square. */
    method CopyNextSquare(source: seq<byte>, size: nat, ghost pos: nat, ghost n: nat)
      requires size == SquareSize(stream(pos)) && rngPos == pos + 1 + 2 * n
      modifies mosaicBuffer, this`rngPos
      ensures mosaicBuffer[..] == CopySquare(old(mosaicBuffer[..]), source, PassSquare(stream, pos, n))
      ensures rngPos == old(rngPos) + 2
    {
      var rx := NextRandom();
      var x := Origin(rx, WIDTH, size);
      var ry := NextRandom();
      var y := Origin(ry, HEIGHT, size);
      assert Square(x, y, size) == PassSquare(stream, pos, n);
      CopyBlock(source, Square(x, y, size));
    }

    /**
     * The CPU part of drawing one frame: takes whatever the slot holds and,
     * only when it is a frame of exactly FRAME_SIZE bytes, runs one pass with
     * it. A frame of another length is taken and dropped. `processed` tells
     * whether the canvas is re-uploaded and drawn; when it is false the
     * original returns early.
     */
    method Render() returns (processed: bool)
      requires Valid()
      modifies sharedFrame, mosaicBuffer, this`rngPos
      ensures sharedFrame.current == None
      ensures processed <==> old(sharedFrame.current).Some? && |old(sharedFrame.current).value| == FRAME_SIZE
      ensures processed ==>
        && mosaicBuffer[..] == CopySquares(old(mosaicBuffer[..]), old(sharedFrame.current).value, PassSquares(stream, old(rngPos)))
        && rngPos == old(rngPos) + DRAWS_PER_PASS
      ensures !processed ==> mosaicBuffer[..] == old(mosaicBuffer[..]) && rngPos == old(rngPos)
    {
      var newFrameProcessed := false;
      var current := sharedFrame.TakeCurrent();
      if current.Some? {
        if |current.value| == FRAME_SIZE {
          newFrameProcessed := true;
          UpdateRandomSquares(current.value);
        }
      }
      processed := newFrameProcessed;
      if !newFrameProcessed {
        return;
      }
    }
  }
  /** A canvas of FRAME_SIZE zero bytes, as the renderer starts with. */
  function BlankCanvas(): (c: seq<byte>)
    ensures |c| == FRAME_SIZE
    ensures forall i :: 0 <= i < |c| ==> c[i] == 0
  {
    seq(FRAME_SIZE, _ => 0)
  }

  /**
   * The capture side publishes one frame and the render loop draws once with
   * a fresh renderer. A frame of the wrong length leaves the canvas blank and
   * the generator untouched; a frame-sized one is sampled by the first pass.
   * Either way the slot ends empty and the timer is not involved.
   */
  method FirstRender(stream: nat -> nat, start: nat, frame: seq<byte>)
    returns (processed: bool, canvas: seq<byte>, left: Option<seq<byte>>)
    ensures processed <==> |frame| == FRAME_SIZE
    ensures processed ==> canvas == CopySquares(BlankCanvas(), frame, PassSquares(stream, 0))
    ensures !processed ==> canvas == BlankCanvas()
    ensures left == None
  {
    var slot := new SharedFrame();
    var renderer := new VideoRenderer(slot, start, stream);
    assert renderer.mosaicBuffer[..] == BlankCanvas();
    slot.SetCurrent(frame);
    processed := renderer.Render();
    canvas := renderer.mosaicBuffer[..];
    left := slot.TakeCurrent();
  }

  /**
   * Two ticks of the timer: one `early` nanoseconds after construction and
   * one `late` nanoseconds after it. Only a tick at least the interval after
   * the last accepted one moves the timer and the counter.
   */
  method TimerTicks(start: nat, early: nat, late: nat) returns (counter: nat, last: nat)
    requires early < UPDATE_INTERVAL <= late
    ensures counter == 1 && last == start + late
  {
    var slot := new SharedFrame();
    var renderer := new VideoRenderer(slot, start, _ => 0);
    renderer.Update(start + early);
    assert renderer.frameCounter == 0 && renderer.lastUpdate == start;
    renderer.Update(start + late);
    counter, last := renderer.frameCounter, renderer.lastUpdate;
  }
}
