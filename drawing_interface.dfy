/**
 * What every drawing back end shares: the option defaults, the mapping of a
 * glyph's normalised 0..100 commands onto drawing primitives, and the rule
 * for when a glyph starts a new letter.
 *
 * `draw_glyph` of the base class walks the glyph's commands and calls the
 * back end's `line`, `arc` and `circle` for each; `GlyphPrimitives` is that
 * sequence of calls, which each back end's `DrawGlyph` performs.
 */
module DrawingInterface {
  import opened Options
  import opened GlyphDsl

  datatype Rgb = Rgb(r: real, g: real, b: real)

  /** The options after the defaults are merged with the caller's. */
  datatype DrawOptions = DrawOptions(lineWidth: real, color: Rgb, glyphWidth: real, glyphHeight: real)

  /** The option keys a caller may pass; None is a key left out. */
  datatype UserOptions = UserOptions(
    lineWidth: Option<real>,
    color: Option<Rgb>,
    glyphWidth: Option<real>,
    glyphHeight: Option<real>,
    width: Option<real>,
    height: Option<real>,
    backgroundColor: Option<string>)

  const NO_OPTIONS: UserOptions := UserOptions(None, None, None, None, None, None, None)

  const DEFAULT_LINE_WIDTH: real := 4.0
  const DEFAULT_COLOR: Rgb := Rgb(0.2, 0.2, 0.2)
  const DEFAULT_GLYPH_SIZE: real := 40.0

  /** The defaults merged with the caller's options: a key the caller gives wins. */
  function MergeOptions(user: UserOptions): (o: DrawOptions)
    ensures o.lineWidth == if user.lineWidth.Some? then user.lineWidth.value else DEFAULT_LINE_WIDTH
    ensures o.color == if user.color.Some? then user.color.value else DEFAULT_COLOR
    ensures o.glyphWidth == if user.glyphWidth.Some? then user.glyphWidth.value else DEFAULT_GLYPH_SIZE
    ensures o.glyphHeight == if user.glyphHeight.Some? then user.glyphHeight.value else DEFAULT_GLYPH_SIZE
  {
    DrawOptions(
      user.lineWidth.GetOr(DEFAULT_LINE_WIDTH),
      user.color.GetOr(DEFAULT_COLOR),
      user.glyphWidth.GetOr(DEFAULT_GLYPH_SIZE),
      user.glyphHeight.GetOr(DEFAULT_GLYPH_SIZE))
  }

  /** Without caller options the drawing uses line width 4, colour (0.2, 0.2, 0.2) and a 40 x 40 glyph box. */
  lemma DefaultOptions()
    ensures MergeOptions(NO_OPTIONS) == DrawOptions(4.0, Rgb(0.2, 0.2, 0.2), 40.0, 40.0)
  {
  }

  /** One primitive call a glyph issues on the back end. */
  datatype Primitive =
    | LinePrim(x1: real, y1: real, x2: real, y2: real)
    | ArcPrim(x: real, y: real, radius: real, startAngle: real, endAngle: real)
    | CirclePrim(x: real, y: real, radius: real)

  /** A normalised coordinate `p` placed in a box starting at `origin` of size `extent`. */
  function Place(origin: real, p: real, extent: real): real {
    origin + (p / 100.0) * extent
  }

  /** The normalised range 0..100 spans the box exactly: 0 is its start, 100 its end, 50 its middle. */
  lemma PlaceSpansBox(origin: real, p: real, extent: real)
    requires 0.0 <= p <= 100.0 && 0.0 <= extent
    ensures origin <= Place(origin, p, extent) <= origin + extent
    ensures Place(origin, 0.0, extent) == origin
    ensures Place(origin, 100.0, extent) == origin + extent
    ensures Place(origin, 50.0, extent) == origin + extent / 2.0
  {
    assert (p / 100.0) * extent <= extent by {
      assert p / 100.0 <= 1.0;
    }
  }

  function Min(a: real, b: real): real {
    if a <= b then a else b
  }

  /**
   * The primitive for one command in the box at (x, y) of size width x
   * height: endpoints and centres are placed in the box, radii are scaled by
   * the shorter side, angles pass through; other command types issue nothing.
   */
  function MapCommand(c: Command, x: real, y: real, width: real, height: real): (r: Option<Primitive>)
    ensures r.None? <==> c.Other?
  {
    match c
    case Line(x1, y1, x2, y2) =>
      Some(LinePrim(Place(x, x1, width), Place(y, y1, height), Place(x, x2, width), Place(y, y2, height)))
    case Arc(cx, cy, radius, startAngle, endAngle) =>
      Some(ArcPrim(Place(x, cx, width), Place(y, cy, height), (radius / 100.0) * Min(width, height), startAngle, endAngle))
    case Circle(cx, cy, radius) =>
      Some(CirclePrim(Place(x, cx, width), Place(y, cy, height), (radius / 100.0) * Min(width, height)))
    case Other(_) => None
  }

  /** The primitives one command issues: its mapping, or nothing for a foreign command type. */
  function Issued(c: Command, x: real, y: real, width: real, height: real): (ps: seq<Primitive>)
    ensures |ps| <= 1
  {
    match MapCommand(c, x, y, width, height)
    case Some(p) => [p]
    case None => []
  }

  /** The primitive calls `draw_glyph` issues for `commands`, in command order. */
  function GlyphPrimitives(commands: seq<Command>, x: real, y: real, width: real, height: real): seq<Primitive>
    decreases |commands|
  {
    if commands == [] then []
    else GlyphPrimitives(commands[..|commands| - 1], x, y, width, height) + Issued(commands[|commands| - 1], x, y, width, height)
  }

  /** One more command issues its own primitives after those of the commands before it. */
  lemma GlyphPrimitivesSnoc(commands: seq<Command>, c: Command, x: real, y: real, width: real, height: real)
    ensures GlyphPrimitives(commands + [c], x, y, width, height)
            == GlyphPrimitives(commands, x, y, width, height) + Issued(c, x, y, width, height)
  {
    assert (commands + [c])[..|commands|] == commands;
  }

  /**
   * For commands with no foreign types, `draw_glyph` issues exactly one
   * primitive per command, and the k-th primitive is the k-th command mapped.
   */
  lemma {:induction false} PrimitivePerCommand(commands: seq<Command>, x: real, y: real, width: real, height: real)
    requires forall k :: 0 <= k < |commands| ==> !commands[k].Other?
    ensures |GlyphPrimitives(commands, x, y, width, height)| == |commands|
    ensures forall k :: 0 <= k < |commands| ==>
      Some(GlyphPrimitives(commands, x, y, width, height)[k]) == MapCommand(commands[k], x, y, width, height)
    decreases |commands|
  {
    if commands != [] {
      var init := commands[..|commands| - 1];
      PrimitivePerCommand(init, x, y, width, height);
      assert forall k :: 0 <= k < |init| ==> init[k] == commands[k];
    }
  }

  /** Foreign command types issue nothing: dropping them leaves the primitives as they were. */
  lemma {:induction false} OtherCommandsIgnored(commands: seq<Command>, kind: string, x: real, y: real, width: real, height: real)
    ensures GlyphPrimitives(commands + [Other(kind)], x, y, width, height) == GlyphPrimitives(commands, x, y, width, height)
  {
    assert (commands + [Other(kind)])[..|commands|] == commands;
  }

  /**
   * The primitives `draw_glyph(glyph, x, y, scale)` issues with options `o`:
   * the glyph box is the option glyph size times `scale`.
   */
  function DrawnPrimitives(o: DrawOptions, glyph: Glyph, x: real, y: real, scale: real): seq<Primitive> {
    GlyphPrimitives(glyph.commands, x, y, BoxWidth(o, scale), BoxHeight(o, scale))
  }

  /** The width of the box a glyph drawn at `scale` is mapped into. */
  function BoxWidth(o: DrawOptions, scale: real): real {
    o.glyphWidth * scale
  }

  /** The height of the box a glyph drawn at `scale` is mapped into. */
  function BoxHeight(o: DrawOptions, scale: real): real {
    o.glyphHeight * scale
  }

  /** A primitive moved right by `dx`; radii and angles are unchanged. */
  function ShiftX(p: Primitive, dx: real): Primitive {
    match p
    case LinePrim(x1, y1, x2, y2) => LinePrim(x1 + dx, y1, x2 + dx, y2)
    case ArcPrim(x, y, r, s, e) => ArcPrim(x + dx, y, r, s, e)
    case CirclePrim(x, y, r) => CirclePrim(x + dx, y, r)
  }

  /** Drawing a glyph `dx` further right moves every primitive right by `dx` and changes nothing else. */
  lemma {:induction false} GlyphTranslates(commands: seq<Command>, x: real, y: real, width: real, height: real, dx: real)
    ensures |GlyphPrimitives(commands, x + dx, y, width, height)| == |GlyphPrimitives(commands, x, y, width, height)|
    ensures forall k :: 0 <= k < |GlyphPrimitives(commands, x, y, width, height)| ==>
      GlyphPrimitives(commands, x + dx, y, width, height)[k] == ShiftX(GlyphPrimitives(commands, x, y, width, height)[k], dx)
    decreases |commands|
  {
    if commands != [] {
      GlyphTranslates(commands[..|commands| - 1], x, y, width, height, dx);
    }
  }

  /** A glyph drawn with `letter` starts a new letter when the letter is given and differs from the current one. */
  predicate StartsLetter(current: Option<char>, letter: Option<char>) {
    letter.Some? && letter != current
  }

  /** No two neighbouring letters are equal. */
  predicate NoAdjacentRepeats(letters: seq<char>) {
    forall k :: 0 < k < |letters| ==> letters[k - 1] != letters[k]
  }

  /** The current letter after a glyph drawn with `letter`. */
  function NextLetter(current: Option<char>, letter: Option<char>): Option<char> {
    if StartsLetter(current, letter) then letter else current
  }

  /** The current letter after a run of `draw_glyph` calls with the given letters. */
  function LetterAfter(current: Option<char>, letters: seq<Option<char>>): Option<char>
    decreases |letters|
  {
    if letters == [] then current
    else NextLetter(LetterAfter(current, letters[..|letters| - 1]), letters[|letters| - 1])
  }

  /**
   * The letters a run of `draw_glyph` calls starts, beginning with current
   * letter `current`: each call whose letter StartsLetter contributes it and
   * becomes the current letter.
   */
  function StartedLetters(current: Option<char>, letters: seq<Option<char>>): seq<char>
    decreases |letters|
  {
    if letters == [] then []
    else
      var init := letters[..|letters| - 1];
      var last := letters[|letters| - 1];
      StartedLetters(current, init) + if StartsLetter(LetterAfter(current, init), last) then [last.value] else []
  }

  /**
   * Letter tracking never starts the same letter twice in a row, nor the
   * letter already current; afterwards the current letter is the last one
   * started, or the initial one if none was. Consecutive glyphs of one letter
   * therefore share one comment and one group.
   */
  lemma {:induction false} StartedLettersDeduplicate(current: Option<char>, letters: seq<Option<char>>)
    ensures NoAdjacentRepeats(StartedLetters(current, letters))
    ensures current.Some? && |StartedLetters(current, letters)| > 0 ==> StartedLetters(current, letters)[0] != current.value
    ensures LetterAfter(current, letters)
            == if StartedLetters(current, letters) == [] then current
               else Some(StartedLetters(current, letters)[|StartedLetters(current, letters)| - 1])
    decreases |letters|
  {
    if letters != [] {
      var init := letters[..|letters| - 1];
      StartedLettersDeduplicate(current, init);
    }
  }
}
