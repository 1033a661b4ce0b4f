/**
 * The frame exchange of the video mosaic: a single-slot, latest-wins hand-off
 * between the capture callback (the writer) and the render loop (the reader).
 * The mutex and the `Arc` of the original only make each call atomic and let
 * two handles name the same slot; here the slot is one object, handles are
 * references to it, and calls are sequential.
 */
module VideoCapture {
  import opened Options

  /** One byte of an RGBA frame. */
  type byte = bv8

  /** The fixed resolution the capture pipeline scales every frame to. */
  const VIDEO_WIDTH: nat := 1280
  const VIDEO_HEIGHT: nat := 1024

  /** The resolution exported to the renderer. */
  const WIDTH: nat := VIDEO_WIDTH
  const HEIGHT: nat := VIDEO_HEIGHT

  /** The slot holding at most one captured frame, the most recently set one. */
  class SharedFrame {
    var current: Option<seq<byte>>

    /** A new slot holds nothing. */
    constructor ()
      ensures current == None
    {
      current := None;
    }

    /**
     * A clone is another handle on the same slot: the derived `Clone`
     * copies the shared pointer, not the frame.
     */
    method Clone() returns (handle: SharedFrame)
      ensures handle == this
    {
      handle := this;
    }

    /** Stores `data`, discarding whatever the slot held before. */
    method SetCurrent(data: seq<byte>)
      modifies this
      ensures current == Some(data)
    {
      current := Some(data);
    }

    /** Returns what the slot held and leaves it empty. */
    method TakeCurrent() returns (frame: Option<seq<byte>>)
      modifies this
      ensures frame == old(current)
      ensures current == None
    {
      frame := current;
      current := None;
    }
  }

  /**
   * The capture callback sets each frame of `frames` in turn, with no take in
   * between; the render loop then takes twice. The first take sees only the
   * last frame, the second sees nothing.
   */
  method LatestWins(frames: seq<seq<byte>>) returns (first: Option<seq<byte>>, second: Option<seq<byte>>)
    ensures first == if frames == [] then None else Some(frames[|frames| - 1])
    ensures second == None
  {
    var slot := new SharedFrame();
    var i := 0;
    while i < |frames|
      invariant 0 <= i <= |frames|
      invariant slot.current == if i == 0 then None else Some(frames[i - 1])
    {
      slot.SetCurrent(frames[i]);
      i := i + 1;
    }
    first := slot.TakeCurrent();
    second := slot.TakeCurrent();
  }

  /** Taking from an empty slot yields nothing, however often it is done. */
  method TakeFromEmpty(times: nat) returns (results: seq<Option<seq<byte>>>)
    ensures |results| == times
    ensures forall k :: 0 <= k < |results| ==> results[k] == None
  {
    var slot := new SharedFrame();
    results := [];
    while |results| < times
      invariant |results| <= times
      invariant slot.current == None
      invariant forall k :: 0 <= k < |results| ==> results[k] == None
    {
      var r := slot.TakeCurrent();
      results := results + [r];
    }
  }

  /**
   * The capture side and the render side hold clones of one slot: a frame
   * set through one handle is taken through the other, and then through
   * neither.
   */
  method ClonesShareSlot(data: seq<byte>) returns (viaOther: Option<seq<byte>>, viaSetter: Option<seq<byte>>)
    ensures viaOther == Some(data)
    ensures viaSetter == None
  {
    var renderSide := new SharedFrame();
    var captureSide := renderSide.Clone();
    captureSide.SetCurrent(data);
    viaOther := renderSide.TakeCurrent();
    viaSetter := captureSide.TakeCurrent();
  }
}
