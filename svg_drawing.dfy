/**
 * The SVG back end: a growing list of SVG elements, held as structured
 * entries (numbers as reals; their text form is not modelled). SVG's y axis
 * points down, so every emitted y is the page height minus the glyph y. The
 * glyphs of one letter are wrapped in a group that is opened when a new
 * letter starts and closed when the next one starts or the drawing is
 * rendered, so at most one group is ever open.
 */
module Svg {
  import opened Options
  import opened GlyphDsl
  import opened DrawingInterface
  import opened Layout
  import opened Sequences

  /** The stroke attributes every element carries: an RGB colour in 0..255 and the line width. */
  datatype StrokeStyle = StrokeStyle(r: int, g: int, b: int, lineWidth: real)

  /** One line of the SVG document. */
  datatype SvgEntry =
    | XmlDeclaration
    | SvgOpen(width: real, height: real)
    | Background(fill: string)
    | CircleElement(cx: real, cy: real, radius: real, style: StrokeStyle)
    /**
     * An arc path around centre (cx, cy), already flipped, from `startAngle`
     * to `endAngle` degrees; the path's endpoints on the circle are not
     * modelled.
     */
    | ArcPath(cx: real, cy: real, radius: real, startAngle: real, endAngle: real, largeArc: int, sweep: int, style: StrokeStyle)
    | LineElement(x1: real, y1: real, x2: real, y2: real, style: StrokeStyle)
    | LetterComment(letter: char)
    | GroupOpen(letter: char)                  // <g id="letter-c">
    | GroupClose
    | SvgClose

  const DEFAULT_WIDTH: real := 612.0
  const DEFAULT_HEIGHT: real := 792.0
  const DEFAULT_BACKGROUND: string := "white"
  /** Arcs spanning at least this many degrees are drawn as circles. */
  const FULL_CIRCLE: real := 359.9
  /** Arcs spanning more than this many degrees take SVG's large-arc path. */
  const HALF_CIRCLE: real := 180.0

  /** Ruby's Float#to_i: truncation toward zero. */
  function TruncToInt(v: real): (r: int)
    ensures 0.0 <= v ==> r as real <= v < r as real + 1.0
    ensures v < 0.0 ==> r as real - 1.0 < v <= r as real
  {
    if 0.0 <= v then v.Floor else -((-v).Floor)
  }

  /** The stroke attributes for options `o`: each colour channel scaled from 0..1 to 0..255 and truncated. */
  function StyleFor(o: DrawOptions): StrokeStyle {
    StrokeStyle(TruncToInt(o.color.r * 255.0), TruncToInt(o.color.g * 255.0), TruncToInt(o.color.b * 255.0), o.lineWidth)
  }

  /** The default colour 0.2 becomes channel value 51 and the default line width stays 4. */
  lemma DefaultStyle()
    ensures StyleFor(MergeOptions(NO_OPTIONS)) == StrokeStyle(51, 51, 51, 4.0)
  {
    assert TruncToInt(0.2 * 255.0) == 51;
  }

  /** The first three lines: the XML declaration, the opening `svg` tag, and the background rectangle. */
  function Header(width: real, height: real, background: string): seq<SvgEntry> {
    [XmlDeclaration, SvgOpen(width, height), Background(background)]
  }

  function AbsReal(v: real): real {
    if v < 0.0 then -v else v
  }

  /** The arc spans a full circle, up to a tenth of a degree. */
  predicate IsFullCircle(startAngle: real, endAngle: real) {
    AbsReal(endAngle - startAngle) >= FULL_CIRCLE
  }

  /** SVG's large-arc flag: 1 exactly when the arc spans more than half a circle. */
  function LargeArcFlag(startAngle: real, endAngle: real): (f: int)
    ensures f == 0 || f == 1
    ensures f == 1 <==> AbsReal(endAngle - startAngle) > HALF_CIRCLE
  {
    if AbsReal(endAngle - startAngle) > HALF_CIRCLE then 1 else 0
  }

  /** SVG's sweep flag, reversed for the flipped y axis: 0 exactly when the arc runs toward larger angles. */
  function SweepFlag(startAngle: real, endAngle: real): (f: int)
    ensures f == 0 || f == 1
    ensures f == 0 <==> startAngle < endAngle
  {
    if startAngle < endAngle then 0 else 1
  }

  /** The circle element for centre (x, y); only y is flipped. */
  function CircleEntry(height: real, style: StrokeStyle, x: real, y: real, radius: real): SvgEntry {
    CircleElement(x, height - y, radius, style)
  }

  /** The element for an arc: a circle for a full turn, a path otherwise. */
  function ArcEntry(height: real, style: StrokeStyle, x: real, y: real, radius: real, startAngle: real, endAngle: real): (e: SvgEntry)
    ensures e.CircleElement? <==> IsFullCircle(startAngle, endAngle)
  {
    if IsFullCircle(startAngle, endAngle) then CircleEntry(height, style, x, y, radius)
    else ArcPath(x, height - y, radius, startAngle, endAngle, LargeArcFlag(startAngle, endAngle), SweepFlag(startAngle, endAngle), style)
  }

  /** The element for a line; x is kept and y is flipped at both ends. */
  function LineEntry(height: real, style: StrokeStyle, x1: real, y1: real, x2: real, y2: real): SvgEntry {
    LineElement(x1, height - y1, x2, height - y2, style)
  }

  /** A full-turn arc emits exactly what `circle` emits, so the default circle-as-arc and the override agree. */
  lemma FullArcIsCircle(height: real, style: StrokeStyle, x: real, y: real, radius: real)
    ensures ArcEntry(height, style, x, y, radius, 0.0, 360.0) == CircleEntry(height, style, x, y, radius)
  {
  }

  /**
   * Running a partial arc the other way keeps the large-arc flag and flips
   * the sweep flag; both describe the same stretch of the circle.
   */
  lemma ArcReversal(height: real, style: StrokeStyle, x: real, y: real, radius: real, s: real, e: real)
    requires !IsFullCircle(s, e) && s != e
    ensures ArcEntry(height, style, x, y, radius, s, e).largeArc == ArcEntry(height, style, x, y, radius, e, s).largeArc
    ensures ArcEntry(height, style, x, y, radius, s, e).sweep == 1 - ArcEntry(height, style, x, y, radius, e, s).sweep
  {
    assert AbsReal(s - e) == AbsReal(e - s);
  }

  /** The one element a primitive emits; circles use the overriding `circle`. */
  function PrimitiveEntry(height: real, style: StrokeStyle, p: Primitive): SvgEntry {
    match p
    case LinePrim(x1, y1, x2, y2) => LineEntry(height, style, x1, y1, x2, y2)
    case ArcPrim(x, y, radius, s, e) => ArcEntry(height, style, x, y, radius, s, e)
    case CirclePrim(x, y, radius) => CircleEntry(height, style, x, y, radius)
  }

  /** The elements a run of primitives emits, one each, in order. */
  function Elements(height: real, style: StrokeStyle, prims: seq<Primitive>): (es: seq<SvgEntry>)
    ensures |es| == |prims|
    ensures forall k :: 0 <= k < |prims| ==> es[k] == PrimitiveEntry(height, style, prims[k])
  {
    seq(|prims|, k requires 0 <= k < |prims| => PrimitiveEntry(height, style, prims[k]))
  }

  /** What a primitive looks like once drawn: an arc spanning a full turn is a circle. */
  function Outline(p: Primitive): Primitive {
    match p
    case ArcPrim(x, y, radius, s, e) => if IsFullCircle(s, e) then CirclePrim(x, y, radius) else p
    case _ => p
  }

  /** The outlines of a run of primitives, in order. */
  function Outlines(prims: seq<Primitive>): seq<Primitive>
    decreases |prims|
  {
    if prims == [] then [] else Outlines(prims[..|prims| - 1]) + [Outline(prims[|prims| - 1])]
  }

  /** The primitive a shape element draws, with the y flip undone; none for the other lines. */
  function Unflip(height: real, e: SvgEntry): Option<Primitive> {
    match e
    case CircleElement(cx, cy, radius, _) => Some(CirclePrim(cx, height - cy, radius))
    case ArcPath(cx, cy, radius, s, en, _, _, _) => Some(ArcPrim(cx, height - cy, radius, s, en))
    case LineElement(x1, y1, x2, y2, _) => Some(LinePrim(x1, height - y1, x2, height - y2))
    case _ => None
  }

  /** The primitives the shape elements among `entries` draw, in order, read at page height `height`. */
  function Shapes(height: real, entries: seq<SvgEntry>): seq<Primitive>
    decreases |entries|
  {
    if entries == [] then []
    else
      Shapes(height, entries[..|entries| - 1])
        + match Unflip(height, entries[|entries| - 1]) case Some(p) => [p] case None => []
  }

  lemma {:induction false} ShapesAppend(height: real, a: seq<SvgEntry>, b: seq<SvgEntry>)
    ensures Shapes(height, a + b) == Shapes(height, a) + Shapes(height, b)
    decreases |b|
  {
    if b == [] {
      assert a + b == a;
    } else {
      ShapesAppend(height, a, b[..|b| - 1]);
      assert (a + b)[..|a + b| - 1] == a + b[..|b| - 1];
    }
  }

  /** Lines that are not shape elements draw nothing. */
  lemma {:induction false} NoShapesIn(height: real, entries: seq<SvgEntry>)
    requires forall k :: 0 <= k < |entries| ==> Unflip(height, entries[k]).None?
    ensures Shapes(height, entries) == []
    decreases |entries|
  {
    if entries != [] {
      NoShapesIn(height, entries[..|entries| - 1]);
    }
  }

  /**
   * The elements of a run of primitives read back, with y flipped back to
   * the glyph's y, as the primitives' outlines: x, radii and angles are kept.
   */
  lemma {:induction false} ElementsReadBack(height: real, style: StrokeStyle, prims: seq<Primitive>)
    ensures Shapes(height, Elements(height, style, prims)) == Outlines(prims)
    decreases |prims|
  {
    if prims != [] {
      var init := prims[..|prims| - 1];
      var last := prims[|prims| - 1];
      ElementsReadBack(height, style, init);
      var es := Elements(height, style, prims);
      assert es[..|es| - 1] == Elements(height, style, init);
      assert Unflip(height, es[|es| - 1]) == Some(Outline(last));
    }
  }

  /** The letter state of a drawing: the current letter and the letter of the open group, if any. */
  datatype Tracking = Tracking(letter: Option<char>, group: Option<char>)

  const START: Tracking := Tracking(None, None)

  /** The state after a glyph drawn with `letter`: a new letter becomes current and gets its group. */
  function Track(st: Tracking, letter: Option<char>): Tracking {
    if StartsLetter(st.letter, letter) then Tracking(letter, letter) else st
  }

  function TrackAfter(st: Tracking, letters: seq<Option<char>>): Tracking
    decreases |letters|
  {
    if letters == [] then st else Track(TrackAfter(st, letters[..|letters| - 1]), letters[|letters| - 1])
  }

  /** The letter part of the state is the shared letter tracking; a group, when open, is the current letter's. */
  lemma {:induction false} TrackAfterLetter(st: Tracking, letters: seq<Option<char>>)
    ensures TrackAfter(st, letters).letter == LetterAfter(st.letter, letters)
    ensures StartedLetters(st.letter, letters) != [] ==> TrackAfter(st, letters).group == TrackAfter(st, letters).letter
    ensures StartedLetters(st.letter, letters) == [] ==> TrackAfter(st, letters) == st
    decreases |letters|
  {
    if letters != [] {
      TrackAfterLetter(st, letters[..|letters| - 1]);
    }
  }

  /** The lines before a glyph drawn with `letter`: close the open group, comment, and open the letter's group. */
  function LetterEntries(st: Tracking, letter: Option<char>): seq<SvgEntry> {
    if StartsLetter(st.letter, letter) then
      (if st.group.Some? then [GroupClose] else []) + [LetterComment(letter.value), GroupOpen(letter.value)]
    else []
  }

  /** The lines `draw_glyph` appends in state `st`. */
  function GlyphEntries(height: real, style: StrokeStyle, o: DrawOptions, st: Tracking,
                        glyph: Glyph, x: real, y: real, scale: real, letter: Option<char>): seq<SvgEntry> {
    LetterEntries(st, letter) + Elements(height, style, DrawnPrimitives(o, glyph, x, y, scale))
  }

  /** The shapes of a glyph read back as its primitives' outlines; the group and comment lines read as nothing. */
  lemma GlyphReadBack(height: real, style: StrokeStyle, o: DrawOptions, st: Tracking,
                      glyph: Glyph, x: real, y: real, scale: real, letter: Option<char>)
    ensures Shapes(height, GlyphEntries(height, style, o, st, glyph, x, y, scale, letter)) == Outlines(DrawnPrimitives(o, glyph, x, y, scale))
  {
    var before := LetterEntries(st, letter);
    var prims := DrawnPrimitives(o, glyph, x, y, scale);
    ShapesAppend(height, before, Elements(height, style, prims));
    ElementsReadBack(height, style, prims);
    NoShapesIn(height, before);
  }

  /** The lines a run of layout calls appends, starting in state `st`. */
  function TextEntries(height: real, style: StrokeStyle, o: DrawOptions, st: Tracking, calls: seq<GlyphCall>): seq<SvgEntry>
    decreases |calls|
  {
    if calls == [] then []
    else
      var init := calls[..|calls| - 1];
      var c := calls[|calls| - 1];
      TextEntries(height, style, o, st, init)
        + GlyphEntries(height, style, o, TrackAfter(st, CallLetters(init)), c.glyph, c.x, c.y, c.scale, Some(c.letter))
  }

  /** What `render` appends in state `st`: the close of the open group, if any, and the closing tag. */
  function RenderEntries(st: Tracking): seq<SvgEntry> {
    (if st.group.Some? then [GroupClose] else []) + [SvgClose]
  }

  /** The whole document for a text drawn on a fresh drawing. */
  function Document(width: real, height: real, background: string, o: DrawOptions, calls: seq<GlyphCall>): seq<SvgEntry> {
    var style := StyleFor(o);
    Header(width, height, background) + TextEntries(height, style, o, START, calls)
      + RenderEntries(TrackAfter(START, CallLetters(calls)))
  }

  /** How an entry changes the number of open groups. */
  function Delta(e: SvgEntry): int {
    if e.GroupOpen? then 1 else if e.GroupClose? then -1 else 0
  }

  /** The number of groups open after `entries`. */
  function Depth(entries: seq<SvgEntry>): int
    decreases |entries|
  {
    if entries == [] then 0 else Depth(entries[..|entries| - 1]) + Delta(entries[|entries| - 1])
  }

  /** After every prefix of `entries` no group is closed that was not open, and at most one is open. */
  predicate Nested(entries: seq<SvgEntry>)
    decreases |entries|
  {
    entries == [] || (Nested(entries[..|entries| - 1]) && 0 <= Depth(entries) <= 1)
  }

  /** The letters of the groups `entries` opens, in order. */
  function Groups(entries: seq<SvgEntry>): seq<char>
    decreases |entries|
  {
    if entries == [] then []
    else
      var last := entries[|entries| - 1];
      Groups(entries[..|entries| - 1]) + if last.GroupOpen? then [last.letter] else []
  }

  /** Entries that neither open nor close a group. */
  predicate Flat(entries: seq<SvgEntry>) {
    forall k :: 0 <= k < |entries| ==> Delta(entries[k]) == 0 && !entries[k].GroupOpen?
  }

  lemma Snoc(entries: seq<SvgEntry>, e: SvgEntry)
    ensures Depth(entries + [e]) == Depth(entries) + Delta(e)
    ensures Nested(entries + [e]) <==> Nested(entries) && 0 <= Depth(entries) + Delta(e) <= 1
    ensures Groups(entries + [e]) == Groups(entries) + if e.GroupOpen? then [e.letter] else []
  {
    assert (entries + [e])[..|entries|] == entries;
  }

  /** Entries that touch no group leave the depth, the nesting and the groups as they were. */
  lemma {:induction false} FlatAppend(a: seq<SvgEntry>, b: seq<SvgEntry>)
    requires Flat(b)
    ensures Depth(a + b) == Depth(a)
    ensures Groups(a + b) == Groups(a)
    ensures Nested(a) && 0 <= Depth(a) <= 1 ==> Nested(a + b)
    decreases |b|
  {
    if b == [] {
      assert a + b == a;
    } else {
      var init := b[..|b| - 1];
      var last := b[|b| - 1];
      FlatAppend(a, init);
      assert a + b == (a + init) + [last];
      Snoc(a + init, last);
    }
  }

  /**
   * The state a drawing keeps: groups are properly nested with at most one
   * open, one is open exactly when the state names a group, which is then
   * the current letter's; no two successive groups share a letter, and the
   * current letter is the last group's, or none before the first group.
   */
  predicate Consistent(entries: seq<SvgEntry>, st: Tracking) {
    && Nested(entries)
    && Depth(entries) == (if st.group.Some? then 1 else 0)
    && (st.group.Some? ==> st.group == st.letter)
    && NoAdjacentRepeats(Groups(entries))
    && st.letter == if Groups(entries) == [] then None else Some(Groups(entries)[|Groups(entries)| - 1])
  }

  /** Elements that touch no group keep a drawing consistent, in the same state. */
  lemma FlatKeepsConsistent(entries: seq<SvgEntry>, st: Tracking, elems: seq<SvgEntry>)
    requires Consistent(entries, st)
    requires Flat(elems)
    ensures Consistent(entries + elems, st)
  {
    FlatAppend(entries, elems);
  }

  /** The element of a primitive neither opens nor closes a group. */
  lemma PrimitiveEntryIsFlat(height: real, style: StrokeStyle, p: Primitive)
    ensures Flat([PrimitiveEntry(height, style, p)])
  {
  }

  /** The elements of any run of primitives touch no group. */
  lemma ElementsAreFlat(height: real, style: StrokeStyle, prims: seq<Primitive>)
    ensures Flat(Elements(height, style, prims))
  {
    var es := Elements(height, style, prims);
    forall k | 0 <= k < |es|
      ensures Delta(es[k]) == 0 && !es[k].GroupOpen?
    {
      PrimitiveEntryIsFlat(height, style, prims[k]);
      assert [PrimitiveEntry(height, style, prims[k])][0] == es[k];
    }
  }

  /** The elements of any run of primitives keep a drawing consistent, in the same state. */
  lemma ElementsKeepConsistent(height: real, style: StrokeStyle, entries: seq<SvgEntry>, st: Tracking, prims: seq<Primitive>)
    requires Consistent(entries, st)
    ensures Consistent(entries + Elements(height, style, prims), st)
  {
    ElementsAreFlat(height, style, prims);
    FlatKeepsConsistent(entries, st, Elements(height, style, prims));
  }

  lemma HeaderConsistent(width: real, height: real, background: string)
    ensures Flat(Header(width, height, background))
    ensures Consistent(Header(width, height, background), START)
  {
    FlatAppend([], Header(width, height, background));
    assert [] + Header(width, height, background) == Header(width, height, background);
  }

  /** Opening a new letter's group keeps a drawing consistent. */
  lemma LetterKeepsConsistent(entries: seq<SvgEntry>, st: Tracking, letter: Option<char>)
    requires Consistent(entries, st)
    ensures Consistent(entries + LetterEntries(st, letter), Track(st, letter))
    ensures Groups(entries + LetterEntries(st, letter))
            == Groups(entries) + if StartsLetter(st.letter, letter) then [letter.value] else []
  {
    if StartsLetter(st.letter, letter) {
      var l := letter.value;
      var closed := entries + if st.group.Some? then [GroupClose] else [];
      if st.group.Some? {
        Snoc(entries, GroupClose);
      } else {
        assert closed == entries;
      }
      Snoc(closed, LetterComment(l));
      Snoc(closed + [LetterComment(l)], GroupOpen(l));
      assert entries + LetterEntries(st, letter) == (closed + [LetterComment(l)]) + [GroupOpen(l)];
    } else {
      assert entries + LetterEntries(st, letter) == entries;
    }
  }

  /** Drawing a glyph keeps a drawing consistent, and opens a group exactly when it starts a new letter. */
  lemma GlyphKeepsConsistent(height: real, style: StrokeStyle, o: DrawOptions, entries: seq<SvgEntry>, st: Tracking,
                             glyph: Glyph, x: real, y: real, scale: real, letter: Option<char>)
    requires Consistent(entries, st)
    ensures Consistent(entries + GlyphEntries(height, style, o, st, glyph, x, y, scale, letter), Track(st, letter))
    ensures Groups(entries + GlyphEntries(height, style, o, st, glyph, x, y, scale, letter))
            == Groups(entries) + if StartsLetter(st.letter, letter) then [letter.value] else []
  {
    var withLetter := entries + LetterEntries(st, letter);
    var elems := Elements(height, style, DrawnPrimitives(o, glyph, x, y, scale));
    LetterKeepsConsistent(entries, st, letter);
    FlatAppend(withLetter, elems);
    AppendAssoc(entries, LetterEntries(st, letter), elems);
  }

  /** Rendering closes every group: the finished document is balanced. */
  lemma RenderCloses(entries: seq<SvgEntry>, st: Tracking)
    requires Consistent(entries, st)
    ensures Depth(entries + RenderEntries(st)) == 0
    ensures Nested(entries + RenderEntries(st))
    ensures Groups(entries + RenderEntries(st)) == Groups(entries)
    ensures Consistent(entries + RenderEntries(st), Tracking(st.letter, None))
  {
    var closed := entries + if st.group.Some? then [GroupClose] else [];
    if st.group.Some? {
      Snoc(entries, GroupClose);
    } else {
      assert closed == entries;
    }
    Snoc(closed, SvgClose);
    assert entries + RenderEntries(st) == closed + [SvgClose];
  }

  /** Drawing one more call of a text appends that call's lines. */
  lemma TextStep(height: real, style: StrokeStyle, o: DrawOptions, st: Tracking, calls: seq<GlyphCall>, i: nat)
    requires i < |calls|
    ensures TextEntries(height, style, o, st, calls[..i + 1])
            == TextEntries(height, style, o, st, calls[..i])
               + GlyphEntries(height, style, o, TrackAfter(st, CallLetters(calls[..i])),
                              calls[i].glyph, calls[i].x, calls[i].y, calls[i].scale, Some(calls[i].letter))
    ensures TrackAfter(st, CallLetters(calls[..i + 1])) == Track(TrackAfter(st, CallLetters(calls[..i])), Some(calls[i].letter))
  {
    assert calls[..i + 1][..i] == calls[..i];
    assert CallLetters(calls[..i + 1])[..i] == CallLetters(calls[..i]);
  }

  /** The last call of a text appends its glyph's lines, in the state the calls before it leave. */
  lemma TextSnoc(height: real, style: StrokeStyle, o: DrawOptions, st: Tracking, calls: seq<GlyphCall>)
    requires calls != []
    ensures var n := |calls| - 1;
            var cur := TrackAfter(st, CallLetters(calls[..n]));
            && TextEntries(height, style, o, st, calls)
               == TextEntries(height, style, o, st, calls[..n])
                  + GlyphEntries(height, style, o, cur, calls[n].glyph, calls[n].x, calls[n].y, calls[n].scale, Some(calls[n].letter))
            && TrackAfter(st, CallLetters(calls)) == Track(cur, Some(calls[n].letter))
            && StartedLetters(st.letter, CallLetters(calls))
               == StartedLetters(st.letter, CallLetters(calls[..n]))
                  + if StartsLetter(cur.letter, Some(calls[n].letter)) then [calls[n].letter] else []
  {
    var n := |calls| - 1;
    assert CallLetters(calls)[..n] == CallLetters(calls[..n]);
    TrackAfterLetter(st, CallLetters(calls[..n]));
  }

  /**
   * Drawing a text keeps a drawing consistent, and the groups it opens are
   * exactly the letters letter tracking starts.
   */
  lemma {:induction false} TextKeepsConsistent(height: real, style: StrokeStyle, o: DrawOptions,
                                               entries: seq<SvgEntry>, st: Tracking, calls: seq<GlyphCall>)
    requires Consistent(entries, st)
    ensures Consistent(entries + TextEntries(height, style, o, st, calls), TrackAfter(st, CallLetters(calls)))
    ensures Groups(entries + TextEntries(height, style, o, st, calls)) == Groups(entries) + StartedLetters(st.letter, CallLetters(calls))
    decreases |calls|
  {
    if calls == [] {
      assert entries + TextEntries(height, style, o, st, calls) == entries;
    } else {
      var n := |calls| - 1;
      var init := calls[..n];
      var c := calls[n];
      var cur := TrackAfter(st, CallLetters(init));
      var before := TextEntries(height, style, o, st, init);
      var step := GlyphEntries(height, style, o, cur, c.glyph, c.x, c.y, c.scale, Some(c.letter));
      TextSnoc(height, style, o, st, calls);
      AppendAssoc(entries, before, step);
      TextKeepsConsistent(height, style, o, entries, st, init);
      GlyphKeepsConsistent(height, style, o, entries + before, cur, c.glyph, c.x, c.y, c.scale, Some(c.letter));
    }
  }

  /**
   * A whole document opens with the header, ends with the closing tag,
   * closes every group it opens with at most one open at a time, and opens
   * one group per run of equal letters, never two in a row for one letter.
   */
  lemma DocumentBalanced(width: real, height: real, background: string, o: DrawOptions, calls: seq<GlyphCall>)
    ensures Document(width, height, background, o, calls)[..3] == Header(width, height, background)
    ensures Document(width, height, background, o, calls)[|Document(width, height, background, o, calls)| - 1] == SvgClose
    ensures Depth(Document(width, height, background, o, calls)) == 0
    ensures Nested(Document(width, height, background, o, calls))
    ensures Groups(Document(width, height, background, o, calls)) == StartedLetters(None, CallLetters(calls))
    ensures NoAdjacentRepeats(Groups(Document(width, height, background, o, calls)))
  {
    var h := Header(width, height, background);
    var style := StyleFor(o);
    var text := TextEntries(height, style, o, START, calls);
    var st := TrackAfter(START, CallLetters(calls));
    var d := Document(width, height, background, o, calls);
    assert d == (h + text) + RenderEntries(st);
    HeaderConsistent(width, height, background);
    TextKeepsConsistent(height, style, o, h, START, calls);
    RenderCloses(h + text, st);
    StartedLettersDeduplicate(None, CallLetters(calls));
    assert d[..3] == h by {
      AppendAssoc(h, text, RenderEntries(st));
    }
  }

  class SvgDrawing {
    const options: DrawOptions
    const width: real
    const height: real
    const backgroundColor: string
    const strokeStyle: StrokeStyle
    var commands: seq<SvgEntry>
    var currentLetter: Option<char>
    var currentGroup: Option<char>

    predicate Valid()
      reads this
    {
      && strokeStyle == StyleFor(options)
      && |commands| >= 3 && commands[..3] == Header(width, height, backgroundColor)
      && Consistent(commands, Tracking(currentLetter, currentGroup))
    }

    /**
     * A new drawing: page size and background from `user` (612 x 792 and
     * white when absent), the merged options, the header, and no letter.
     */
    constructor (user: UserOptions)
      ensures options == MergeOptions(user)
      ensures width == user.width.GetOr(DEFAULT_WIDTH) && height == user.height.GetOr(DEFAULT_HEIGHT)
      ensures backgroundColor == user.backgroundColor.GetOr(DEFAULT_BACKGROUND)
      ensures commands == Header(width, height, backgroundColor)
      ensures currentLetter == None && currentGroup == None
      ensures Valid()
    {
      options := MergeOptions(user);
      width := user.width.GetOr(DEFAULT_WIDTH);
      height := user.height.GetOr(DEFAULT_HEIGHT);
      backgroundColor := user.backgroundColor.GetOr(DEFAULT_BACKGROUND);
      var o := MergeOptions(user);
      strokeStyle := StrokeStyle(TruncToInt(o.color.r * 255.0), TruncToInt(o.color.g * 255.0), TruncToInt(o.color.b * 255.0), o.lineWidth);
      commands := Header(user.width.GetOr(DEFAULT_WIDTH), user.height.GetOr(DEFAULT_HEIGHT), user.backgroundColor.GetOr(DEFAULT_BACKGROUND));
      currentLetter := None;
      currentGroup := None;
      new;
      HeaderConsistent(width, height, backgroundColor);
    }

    /** An arc: a circle element for a full turn, otherwise a path with its two flags. */
    method Arc(x: real, y: real, radius: real, startAngle: real, endAngle: real)
      requires Valid()
      modifies this`commands
      ensures commands == old(commands) + [ArcEntry(height, strokeStyle, x, y, radius, startAngle, endAngle)]
      ensures Valid()
    {
      PrimitiveEntryIsFlat(height, strokeStyle, ArcPrim(x, y, radius, startAngle, endAngle));
      FlatKeepsConsistent(commands, Tracking(currentLetter, currentGroup), [ArcEntry(height, strokeStyle, x, y, radius, startAngle, endAngle)]);
      if AbsReal(endAngle - startAngle) >= FULL_CIRCLE {
        var yFlipped := height - y;
        commands := commands + [CircleElement(x, yFlipped, radius, strokeStyle)];
        return;
      }
      var largeArc := if AbsReal(endAngle - startAngle) > HALF_CIRCLE then 1 else 0;
      var sweepFlag := if startAngle < endAngle then 0 else 1;
      commands := commands + [ArcPath(x, height - y, radius, startAngle, endAngle, largeArc, sweepFlag, strokeStyle)];
    }

    method Line(x1: real, y1: real, x2: real, y2: real)
      requires Valid()
      modifies this`commands
      ensures commands == old(commands) + [LineEntry(height, strokeStyle, x1, y1, x2, y2)]
      ensures Valid()
    {
      PrimitiveEntryIsFlat(height, strokeStyle, LinePrim(x1, y1, x2, y2));
      FlatKeepsConsistent(commands, Tracking(currentLetter, currentGroup), [LineEntry(height, strokeStyle, x1, y1, x2, y2)]);
      var y1Flipped := height - y1;
      var y2Flipped := height - y2;
      commands := commands + [LineElement(x1, y1Flipped, x2, y2Flipped, strokeStyle)];
    }

    /** The overriding circle: one circle element. */
    method Circle(x: real, y: real, radius: real)
      requires Valid()
      modifies this`commands
      ensures commands == old(commands) + [CircleEntry(height, strokeStyle, x, y, radius)]
      ensures Valid()
    {
      PrimitiveEntryIsFlat(height, strokeStyle, CirclePrim(x, y, radius));
      FlatKeepsConsistent(commands, Tracking(currentLetter, currentGroup), [CircleEntry(height, strokeStyle, x, y, radius)]);
      var yFlipped := height - y;
      commands := commands + [CircleElement(x, yFlipped, radius, strokeStyle)];
    }

    /** Closes the open group, if any, appends the closing tag and returns the document. */
    method Render() returns (output: seq<SvgEntry>)
      requires Valid()
      modifies this`commands, this`currentGroup
      ensures commands == old(commands) + RenderEntries(Tracking(old(currentLetter), old(currentGroup)))
      ensures currentGroup == None
      ensures output == commands
      ensures Depth(output) == 0 && Nested(output)
      ensures Valid()
    {
      RenderCloses(commands, Tracking(currentLetter, currentGroup));
      if currentGroup.Some? {
        commands := commands + [GroupClose];
        currentGroup := None;
      }
      commands := commands + [SvgClose];
      output := commands;
    }

    /** The back end call for one primitive. */
    method DrawPrimitive(p: Primitive)
      requires Valid()
      modifies this`commands
      ensures commands == old(commands) + [PrimitiveEntry(height, strokeStyle, p)]
      ensures Valid()
    {
      match p
      case LinePrim(x1, y1, x2, y2) => Line(x1, y1, x2, y2);
      case ArcPrim(cx, cy, radius, s, e) => Arc(cx, cy, radius, s, e);
      case CirclePrim(cx, cy, radius) => Circle(cx, cy, radius);
    }

    /** The primitive call of one glyph command, if it has a drawable type. */
    method DrawCommand(c: Command, x: real, y: real, width: real, height: real)
      requires Valid()
      modifies this`commands
      ensures commands == old(commands) + Elements(this.height, strokeStyle, Issued(c, x, y, width, height))
      ensures Valid()
    {
      var primitive := MapCommand(c, x, y, width, height);
      if primitive.Some? {
        assert Issued(c, x, y, width, height) == [primitive.value];
        DrawPrimitive(primitive.value);
      } else {
        assert Elements(this.height, strokeStyle, Issued(c, x, y, width, height)) == [];
      }
    }

    /** The loop of the inherited `draw_glyph`: one primitive call per drawable command, in order. */
    method DrawCommands(cmds: seq<Command>, x: real, y: real, width: real, height: real)
      requires Valid()
      modifies this`commands
      ensures commands == old(commands) + Elements(this.height, strokeStyle, GlyphPrimitives(cmds, x, y, width, height))
      ensures Valid()
    {
      ghost var start := commands;
      ghost var st := Tracking(currentLetter, currentGroup);
      var i := 0;
      while i < |cmds|
        invariant 0 <= i <= |cmds|
        invariant strokeStyle == StyleFor(options) && |start| >= 3 && start[..3] == Header(this.width, this.height, backgroundColor)
        invariant Consistent(start, st) && st == Tracking(currentLetter, currentGroup)
        invariant commands == start + Elements(this.height, strokeStyle, GlyphPrimitives(cmds[..i], x, y, width, height))
      {
        ghost var done := GlyphPrimitives(cmds[..i], x, y, width, height);
        ghost var more := Issued(cmds[i], x, y, width, height);
        ElementsKeepConsistent(this.height, strokeStyle, start, st, done);
        assert cmds[..i + 1] == cmds[..i] + [cmds[i]];
        GlyphPrimitivesSnoc(cmds[..i], cmds[i], x, y, width, height);
        assert Elements(this.height, strokeStyle, done + more)
               == Elements(this.height, strokeStyle, done) + Elements(this.height, strokeStyle, more);
        AppendAssoc(start, Elements(this.height, strokeStyle, done), Elements(this.height, strokeStyle, more));
        DrawCommand(cmds[i], x, y, width, height);
        i := i + 1;
      }
      assert cmds[..i] == cmds;
      ElementsKeepConsistent(this.height, strokeStyle, start, st, GlyphPrimitives(cmds, x, y, width, height));
    }

    /** Closes the previous group, comments and opens a group when `letter` starts a new letter. */
    method OpenLetter(letter: Option<char>)
      requires Valid()
      modifies this`commands, this`currentLetter, this`currentGroup
      ensures commands == old(commands) + LetterEntries(Tracking(old(currentLetter), old(currentGroup)), letter)
      ensures Tracking(currentLetter, currentGroup) == Track(Tracking(old(currentLetter), old(currentGroup)), letter)
      ensures Valid()
    {
      LetterKeepsConsistent(commands, Tracking(currentLetter, currentGroup), letter);
      if letter.Some? && letter != currentLetter {
        if currentGroup.Some? {
          commands := commands + [GroupClose];
        }
        commands := commands + [LetterComment(letter.value)];
        commands := commands + [GroupOpen(letter.value)];
        currentLetter := letter;
        currentGroup := letter;
      }
    }

    /** Draws a glyph inside its letter's group, opening a new group when it starts a new letter. */
    method DrawGlyph(glyph: Glyph, x: real, y: real, scale: real, letter: Option<char>)
      requires Valid()
      modifies this`commands, this`currentLetter, this`currentGroup
      ensures commands == old(commands)
                + GlyphEntries(height, strokeStyle, options, Tracking(old(currentLetter), old(currentGroup)), glyph, x, y, scale, letter)
      ensures Tracking(currentLetter, currentGroup) == Track(Tracking(old(currentLetter), old(currentGroup)), letter)
      ensures Valid()
    {
      ghost var st := Tracking(currentLetter, currentGroup);
      AppendAssoc(commands, LetterEntries(st, letter), Elements(height, strokeStyle, DrawnPrimitives(options, glyph, x, y, scale)));
      OpenLetter(letter);
      var boxWidth := BoxWidth(options, scale);
      var boxHeight := BoxHeight(options, scale);
      DrawCommands(glyph.commands, x, y, boxWidth, boxHeight);
      assert commands[..3] == old(commands)[..3];
    }

    /** Performs the calls of a text layout's `draw`, in order. */
    method DrawText(calls: seq<GlyphCall>)
      requires Valid()
      modifies this`commands, this`currentLetter, this`currentGroup
      ensures commands == old(commands) + TextEntries(height, strokeStyle, options, Tracking(old(currentLetter), old(currentGroup)), calls)
      ensures Tracking(currentLetter, currentGroup) == TrackAfter(Tracking(old(currentLetter), old(currentGroup)), CallLetters(calls))
      ensures Valid()
    {
      ghost var st := Tracking(currentLetter, currentGroup);
      var i := 0;
      while i < |calls|
        invariant 0 <= i <= |calls|
        invariant Valid()
        invariant commands == old(commands) + TextEntries(height, strokeStyle, options, st, calls[..i])
        invariant Tracking(currentLetter, currentGroup) == TrackAfter(st, CallLetters(calls[..i]))
      {
        var c := calls[i];
        TextStep(height, strokeStyle, options, st, calls, i);
        AppendAssoc(old(commands), TextEntries(height, strokeStyle, options, st, calls[..i]),
                    GlyphEntries(height, strokeStyle, options, Tracking(currentLetter, currentGroup), c.glyph, c.x, c.y, c.scale, Some(c.letter)));
        DrawGlyph(c.glyph, c.x, c.y, c.scale, Some(c.letter));
        i := i + 1;
      }
      assert calls[..i] == calls;
    }
  }
}
