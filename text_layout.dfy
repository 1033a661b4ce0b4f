/**
 * Laying a string out as a row of glyphs.
 *
 * `draw` walks the text left to right with a cursor; every character that
 * has a glyph is handed to the drawing back end at the cursor, and the cursor
 * then moves right by the glyph width plus a spacing proportional to the
 * glyph's width restriction. The back end is polymorphic in the program; here
 * `Draw` returns the sequence of `draw_glyph` calls it issues, and each back
 * end performs such a sequence.
 */
module Layout {
  import opened Options
  import opened GlyphDsl

  /** One `draw_glyph(glyph, x, y, scale, letter)` call. */
  datatype GlyphCall = GlyphCall(glyph: Glyph, x: real, y: real, scale: real, letter: char)

  /** What the cursor walk needs of a layout besides its text and its start. */
  datatype Pen = Pen(y: real, scale: real, glyphWidth: real, baseSpacing: real)

  /** The width of one glyph box before scaling. */
  const GLYPH_BOX_WIDTH: real := 40.0

  /** How far the cursor moves past glyph `g`. */
  function Advance(pen: Pen, g: Glyph): real {
    pen.glyphWidth + pen.baseSpacing * (g.widthRestriction / FULL_WIDTH)
  }

  /** The glyph drawn for character `c`: the one registered under the one-character name. */
  function GlyphFor(glyphs: map<string, Glyph>, c: char): Option<Glyph> {
    Lookup(glyphs, Str([c]))
  }

  /** The calls `draw` issues for `text` with the cursor starting at `cursor`. */
  function LayoutCalls(text: string, glyphs: map<string, Glyph>, cursor: real, pen: Pen): seq<GlyphCall>
    decreases |text|
  {
    if text == [] then []
    else
      match GlyphFor(glyphs, text[0])
      case None => LayoutCalls(text[1..], glyphs, cursor, pen)
      case Some(g) =>
        [GlyphCall(g, cursor, pen.y, pen.scale, text[0])] + LayoutCalls(text[1..], glyphs, cursor + Advance(pen, g), pen)
  }

  /** The characters of `text` that have a glyph, in order. */
  function DrawnChars(text: string, glyphs: map<string, Glyph>): seq<char>
    decreases |text|
  {
    if text == [] then []
    else if GlyphFor(glyphs, text[0]).Some? then [text[0]] + DrawnChars(text[1..], glyphs)
    else DrawnChars(text[1..], glyphs)
  }

  /** The `letter` arguments of a run of calls. */
  function CallLetters(calls: seq<GlyphCall>): (ls: seq<Option<char>>)
    ensures |ls| == |calls|
    ensures forall k :: 0 <= k < |calls| ==> ls[k] == Some(calls[k].letter)
  {
    seq(|calls|, k requires 0 <= k < |calls| => Some(calls[k].letter))
  }

  /**
   * Exactly the characters with a glyph are drawn, in text order, each with
   * its own glyph, at the layout's y and scale; the others are skipped.
   */
  lemma {:induction false} LayoutDrawsGlyphChars(text: string, glyphs: map<string, Glyph>, cursor: real, pen: Pen)
    ensures |LayoutCalls(text, glyphs, cursor, pen)| == |DrawnChars(text, glyphs)|
    ensures forall k :: 0 <= k < |LayoutCalls(text, glyphs, cursor, pen)| ==>
      var call := LayoutCalls(text, glyphs, cursor, pen)[k];
      && call.letter == DrawnChars(text, glyphs)[k]
      && GlyphFor(glyphs, call.letter) == Some(call.glyph) && call.y == pen.y && call.scale == pen.scale
    decreases |text|
  {
    if text != [] {
      LayoutDrawsGlyphChars(text[1..], glyphs, cursor, pen);
      match GlyphFor(glyphs, text[0])
      case None =>
      case Some(g) =>
        var rest := LayoutCalls(text[1..], glyphs, cursor + Advance(pen, g), pen);
        LayoutDrawsGlyphChars(text[1..], glyphs, cursor + Advance(pen, g), pen);
        var calls := [GlyphCall(g, cursor, pen.y, pen.scale, text[0])] + rest;
        assert calls[1..] == rest;
        assert forall k :: 1 <= k < |calls| ==> calls[k] == rest[k - 1];
    }
  }

  /**
   * The first glyph is drawn at the starting cursor, and each later glyph is
   * drawn one advance of its predecessor further right.
   */
  lemma {:induction false} LayoutAdvances(text: string, glyphs: map<string, Glyph>, cursor: real, pen: Pen)
    ensures |LayoutCalls(text, glyphs, cursor, pen)| > 0 ==> LayoutCalls(text, glyphs, cursor, pen)[0].x == cursor
    ensures forall k :: 0 <= k < |LayoutCalls(text, glyphs, cursor, pen)| - 1 ==>
      LayoutCalls(text, glyphs, cursor, pen)[k + 1].x
      == LayoutCalls(text, glyphs, cursor, pen)[k].x + Advance(pen, LayoutCalls(text, glyphs, cursor, pen)[k].glyph)
    decreases |text|
  {
    if text != [] {
      match GlyphFor(glyphs, text[0])
      case None =>
        LayoutAdvances(text[1..], glyphs, cursor, pen);
      case Some(g) =>
        var rest := LayoutCalls(text[1..], glyphs, cursor + Advance(pen, g), pen);
        LayoutAdvances(text[1..], glyphs, cursor + Advance(pen, g), pen);
        var calls := [GlyphCall(g, cursor, pen.y, pen.scale, text[0])] + rest;
        assert forall k :: 1 <= k < |calls| ==> calls[k] == rest[k - 1];
    }
  }

  /** A character without a glyph neither draws nor moves the cursor: appending one changes nothing. */
  lemma {:induction false} LayoutSkipsUnknown(text: string, c: char, glyphs: map<string, Glyph>, cursor: real, pen: Pen)
    requires GlyphFor(glyphs, c).None?
    ensures LayoutCalls(text + [c], glyphs, cursor, pen) == LayoutCalls(text, glyphs, cursor, pen)
    decreases |text|
  {
    if text == [] {
      assert ([c])[1..] == [];
    } else {
      assert (text + [c])[0] == text[0];
      assert (text + [c])[1..] == text[1..] + [c];
      match GlyphFor(glyphs, text[0])
      case None => LayoutSkipsUnknown(text[1..], c, glyphs, cursor, pen);
      case Some(g) => LayoutSkipsUnknown(text[1..], c, glyphs, cursor + Advance(pen, g), pen);
    }
  }

  class TextLayout {
    const x: real
    const y: real
    const scale: real
    const baseSpacing: real
    const glyphWidth: real
    var text: string

    /** A layout at (x, y); the spacing and the glyph width scale with `scale`. */
    constructor (x: real, y: real, scale: real := 1.0, spacingFactor: real := 1.0)
      ensures this.x == x && this.y == y && this.scale == scale
      ensures baseSpacing == GLYPH_SPACING * spacingFactor * scale
      ensures glyphWidth == GLYPH_BOX_WIDTH * scale
      ensures text == ""
    {
      this.x := x;
      this.y := y;
      this.scale := scale;
      baseSpacing := GLYPH_SPACING * spacingFactor * scale;
      text := "";
      glyphWidth := GLYPH_BOX_WIDTH * scale;
    }

    function CurrentPen(): Pen
      reads this
    {
      Pen(y, scale, glyphWidth, baseSpacing)
    }

    /** Replaces the text and returns the layout itself, for chaining. */
    method Text(text: string) returns (self: TextLayout)
      modifies this`text
      ensures this.text == text
      ensures self == this
    {
      this.text := text;
      self := this;
    }

    /**
     * The `draw_glyph` calls for the current text, with glyphs looked up in
     * `dsl`. The cursor is a local: the layout is left as it was.
     */
    method Draw(dsl: GlyphRegistry) returns (calls: seq<GlyphCall>)
      ensures calls == LayoutCalls(text, dsl.glyphs, x, CurrentPen())
    {
      var currentX := x;
      calls := [];
      var i := 0;
      while i < |text|
        invariant 0 <= i <= |text|
        invariant calls + LayoutCalls(text[i..], dsl.glyphs, currentX, CurrentPen()) == LayoutCalls(text, dsl.glyphs, x, CurrentPen())
      {
        var c := text[i];
        assert text[i..][0] == c && text[i..][1..] == text[i + 1..];
        var glyphData := dsl.GetGlyph(Str([c]));
        if glyphData.Some? {
          calls := calls + [GlyphCall(glyphData.value, currentX, y, scale, c)];
          var widthRestriction := glyphData.value.widthRestriction;
          var effectiveWidth := glyphWidth;
          var spacing := baseSpacing * (widthRestriction / FULL_WIDTH);
          currentX := currentX + effectiveWidth + spacing;
        }
        i := i + 1;
      }
    }
  }

  /** Drawing twice without changing the text issues the same calls both times. */
  method DrawTwice(layout: TextLayout, dsl: GlyphRegistry) returns (first: seq<GlyphCall>, second: seq<GlyphCall>)
    ensures first == second
    ensures first == LayoutCalls(layout.text, dsl.glyphs, layout.x, layout.CurrentPen())
  {
    first := layout.Draw(dsl);
    second := layout.Draw(dsl);
  }

  /** With glyphs for `a` and the space, "a a" is drawn as `a`, the space and `a`, each one advance further right. */
  lemma LayoutASpaceA(glyphs: map<string, Glyph>, a: Glyph, space: Glyph, cursor: real, pen: Pen)
    requires GlyphFor(glyphs, 'a') == Some(a) && GlyphFor(glyphs, ' ') == Some(space)
    ensures LayoutCalls("a a", glyphs, cursor, pen)
            == [GlyphCall(a, cursor, pen.y, pen.scale, 'a'),
                GlyphCall(space, cursor + Advance(pen, a), pen.y, pen.scale, ' '),
                GlyphCall(a, cursor + Advance(pen, a) + Advance(pen, space), pen.y, pen.scale, 'a')]
  {
    var x1 := cursor + Advance(pen, a);
    var x2 := x1 + Advance(pen, space);
    assert "a a"[1..] == " a" && " a"[1..] == "a" && "a"[1..] == "";
    assert LayoutCalls("a", glyphs, x2, pen) == [GlyphCall(a, x2, pen.y, pen.scale, 'a')];
    assert LayoutCalls(" a", glyphs, x1, pen) == [GlyphCall(space, x1, pen.y, pen.scale, ' '), GlyphCall(a, x2, pen.y, pen.scale, 'a')];
  }

  /** A registry holding `a` under the symbol `:a` and `space` under " " finds both by their characters. */
  lemma TwoGlyphRegistry(a: Glyph, space: Glyph)
    ensures var glyphs := map[][Key(Sym("a")) := a][Key(Str(" ")) := space];
            GlyphFor(glyphs, 'a') == Some(a) && GlyphFor(glyphs, ' ') == Some(space)
  {
    assert Key(Sym("a")) == "a" && Key(Str(['a'])) == "a";
    assert Key(Str(" ")) == " " && Key(Str([' '])) == " ";
  }

  /**
   * The glyph table defines an empty glyph for the space, so a space is drawn
   * like any letter: with glyphs for `a` and the space, the text "a a" issues
   * three calls, the middle one for the space with the empty glyph, and the
   * second `a` lies one `a` advance and one space advance right of the first.
   */
  method SpaceIsDrawn(aBlock: seq<BuilderCall>) returns (calls: seq<GlyphCall>)
    ensures |calls| == 3
    ensures calls[0].letter == 'a' && calls[1].letter == ' ' && calls[2].letter == 'a'
    ensures calls[0].glyph == Build(aBlock) && calls[2].glyph == Build(aBlock)
    ensures calls[1].glyph == Glyph([], FULL_WIDTH)
    ensures calls[0].x == 100.0
    ensures calls[1].x == 100.0 + 40.0 + 20.0 * (Build(aBlock).widthRestriction / 100.0)
    ensures calls[2].x == calls[1].x + 60.0
  {
    var dsl := new GlyphRegistry();
    dsl.DefineGlyph(Sym("a"), aBlock);
    dsl.DefineGlyph(Str(" "), []);
    TwoGlyphRegistry(Build(aBlock), Build([]));
    var layout := new TextLayout(100.0, 400.0);
    var _ := layout.Text("a a");
    calls := layout.Draw(dsl);
    LayoutASpaceA(dsl.glyphs, Build(aBlock), Build([]), 100.0, layout.CurrentPen());
  }
}
