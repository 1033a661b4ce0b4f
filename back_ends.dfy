/**
 * The two back ends draw the same picture. Both inherit `draw_glyph`'s
 * mapping into the glyph box; PostScript strokes a circle as the arc from 0
 * to 360 degrees, and SVG flips y and draws any arc spanning a full turn as a
 * circle. Read back, the two agree once that difference is taken out.
 */
module BackEnds {
  import opened Options
  import opened GlyphDsl
  import opened DrawingInterface
  import PostScript
  import Svg

  /** Stroking a circle as its full arc does not change its outline. */
  lemma {:induction false} OutlinesOfTraced(prims: seq<Primitive>)
    ensures Svg.Outlines(PostScript.Traced(prims)) == Svg.Outlines(prims)
    decreases |prims|
  {
    if prims != [] {
      var init := prims[..|prims| - 1];
      var last := prims[|prims| - 1];
      var traced := PostScript.Traced(prims);
      OutlinesOfTraced(init);
      assert traced[..|traced| - 1] == PostScript.Traced(init);
      assert Svg.Outline(PostScript.AsArc(last)) == Svg.Outline(last);
    }
  }

  /**
   * For every glyph, letter and drawing state, the SVG shapes of a glyph,
   * with y flipped back, are exactly the outlines of the paths the
   * PostScript back end strokes for it: same points, radii and angles.
   */
  lemma SameGlyphOutlines(o: DrawOptions, current: Option<char>, st: Svg.Tracking, height: real, style: Svg.StrokeStyle,
                          glyph: Glyph, x: real, y: real, scale: real, letter: Option<char>)
    ensures Svg.Shapes(height, Svg.GlyphEntries(height, style, o, st, glyph, x, y, scale, letter))
            == Svg.Outlines(PostScript.ReadPaths(PostScript.GlyphEntries(o, current, glyph, x, y, scale, letter)))
  {
    var prims := DrawnPrimitives(o, glyph, x, y, scale);
    PostScript.GlyphReadBack(o, current, glyph, x, y, scale, letter);
    Svg.GlyphReadBack(height, style, o, st, glyph, x, y, scale, letter);
    OutlinesOfTraced(prims);
  }
}
