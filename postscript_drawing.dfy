/**
 * The PostScript back end: a growing list of PostScript lines, held as
 * structured entries (the numbers in them are reals; their text form is not
 * modelled). A drawing starts with a fixed header, every primitive appends a
 * path, glyphs of a new letter are preceded by one letter comment, and
 * `render` closes the page.
 */
module PostScript {
  import opened Options
  import opened GlyphDsl
  import opened DrawingInterface
  import opened Layout
  import opened Sequences

  /** One line of the PostScript program. */
  datatype PsEntry =
    | Magic                                    // %!PS-Adobe-3.0
    | BoundingBox(llx: int, lly: int, urx: int, ury: int)
    | Stroke
    | SetLineWidth(width: real)
    | SetRgbColor(r: real, g: real, b: real)
    | NewPath
    | ArcOp(x: real, y: real, radius: real, startAngle: real, endAngle: real)
    | NewPathMoveTo(x: real, y: real)          // "x y newpath moveto"
    | LineTo(x: real, y: real)
    | LetterComment(letter: char)              // a blank line, then "% Letter: c"
    | ShowPage

  /** The five lines every drawing starts with: magic, US-letter bounding box, stroke, line width, colour. */
  function Header(o: DrawOptions): seq<PsEntry> {
    [Magic, BoundingBox(0, 0, 612, 792), Stroke, SetLineWidth(o.lineWidth), SetRgbColor(o.color.r, o.color.g, o.color.b)]
  }

  /** The lines one primitive appends; a circle is a full 0 to 360 degree arc. */
  function PrimitiveEntries(p: Primitive): (r: seq<PsEntry>)
    ensures |r| == if p.LinePrim? then 4 else 3
    ensures r[0] == NewPath && r[|r| - 1] == Stroke
  {
    match p
    case LinePrim(x1, y1, x2, y2) => [NewPath, NewPathMoveTo(x1, y1), LineTo(x2, y2), Stroke]
    case ArcPrim(x, y, radius, s, e) => [NewPath, ArcOp(x, y, radius, s, e), Stroke]
    case CirclePrim(x, y, radius) => [NewPath, ArcOp(x, y, radius, 0.0, 360.0), Stroke]
  }

  /** The lines a run of primitives appends, in order. */
  function PrimitivesEntries(prims: seq<Primitive>): seq<PsEntry>
    decreases |prims|
  {
    if prims == [] then []
    else PrimitivesEntries(prims[..|prims| - 1]) + PrimitiveEntries(prims[|prims| - 1])
  }

  lemma PrimitivesEntriesSnoc(prims: seq<Primitive>, p: Primitive)
    ensures PrimitivesEntries(prims + [p]) == PrimitivesEntries(prims) + PrimitiveEntries(p)
  {
    assert (prims + [p])[..|prims|] == prims;
  }

  lemma {:induction false} PrimitivesEntriesAppend(a: seq<Primitive>, b: seq<Primitive>)
    ensures PrimitivesEntries(a + b) == PrimitivesEntries(a) + PrimitivesEntries(b)
    decreases |b|
  {
    if b == [] {
      assert a + b == a;
    } else {
      var init := b[..|b| - 1];
      var last := b[|b| - 1];
      var pa, pi, pl := PrimitivesEntries(a), PrimitivesEntries(init), PrimitiveEntries(last);
      calc {
        PrimitivesEntries(a + b);
        { assert a + b == (a + init) + [last]; }
        PrimitivesEntries((a + init) + [last]);
        { PrimitivesEntriesSnoc(a + init, last); }
        PrimitivesEntries(a + init) + pl;
        { PrimitivesEntriesAppend(a, init); }
        (pa + pi) + pl;
        pa + (pi + pl);
        { assert b == init + [last]; PrimitivesEntriesSnoc(init, last); }
        pa + PrimitivesEntries(b);
      }
    }
  }

  /** The primitive a path stands for: the inherited `circle` strokes the arc from 0 to 360 degrees. */
  function AsArc(p: Primitive): Primitive {
    match p
    case CirclePrim(x, y, radius) => ArcPrim(x, y, radius, 0.0, 360.0)
    case _ => p
  }

  /** Each primitive of a run as its path stands for it, in order. */
  function Traced(prims: seq<Primitive>): seq<Primitive>
    decreases |prims|
  {
    if prims == [] then [] else Traced(prims[..|prims| - 1]) + [AsArc(prims[|prims| - 1])]
  }

  /**
   * The primitives the paths at the end of `entries` draw, read from the
   * back: `newpath`, a move, a line and `stroke` are a line, and `newpath`,
   * an arc and `stroke` an arc. Reading stops at the first other line.
   */
  function ReadPaths(entries: seq<PsEntry>): seq<Primitive>
    decreases |entries|
  {
    var n := |entries|;
    if n >= 4 && entries[n - 4] == NewPath && entries[n - 3].NewPathMoveTo? && entries[n - 2].LineTo? && entries[n - 1] == Stroke then
      ReadPaths(entries[..n - 4]) + [LinePrim(entries[n - 3].x, entries[n - 3].y, entries[n - 2].x, entries[n - 2].y)]
    else if n >= 3 && entries[n - 3] == NewPath && entries[n - 2].ArcOp? && entries[n - 1] == Stroke then
      var a := entries[n - 2];
      ReadPaths(entries[..n - 3]) + [ArcPrim(a.x, a.y, a.radius, a.startAngle, a.endAngle)]
    else []
  }

  /** The lines one primitive appends read back as that primitive, a circle as its full arc. */
  lemma ReadPathsSnoc(entries: seq<PsEntry>, p: Primitive)
    ensures ReadPaths(entries + PrimitiveEntries(p)) == ReadPaths(entries) + [AsArc(p)]
  {
    var all := entries + PrimitiveEntries(p);
    assert all[..|entries|] == entries;
  }

  /** Strokes appended after any lines read back as their primitives, in order. */
  lemma {:induction false} ReadPathsAppend(entries: seq<PsEntry>, prims: seq<Primitive>)
    ensures ReadPaths(entries + PrimitivesEntries(prims)) == ReadPaths(entries) + Traced(prims)
    decreases |prims|
  {
    if prims == [] {
      assert entries + PrimitivesEntries(prims) == entries;
    } else {
      var init := prims[..|prims| - 1];
      var last := prims[|prims| - 1];
      var before := PrimitivesEntries(init);
      calc {
        ReadPaths(entries + PrimitivesEntries(prims));
        { AppendAssoc(entries, before, PrimitiveEntries(last)); }
        ReadPaths((entries + before) + PrimitiveEntries(last));
        { ReadPathsSnoc(entries + before, last); }
        ReadPaths(entries + before) + [AsArc(last)];
        { ReadPathsAppend(entries, init); }
        (ReadPaths(entries) + Traced(init)) + [AsArc(last)];
        ReadPaths(entries) + Traced(prims);
      }
    }
  }

  /** The lines of one more command follow those of the commands before it. */
  lemma CommandStep(cmds: seq<Command>, i: nat, x: real, y: real, width: real, height: real)
    requires i < |cmds|
    ensures PrimitivesEntries(GlyphPrimitives(cmds[..i + 1], x, y, width, height))
            == PrimitivesEntries(GlyphPrimitives(cmds[..i], x, y, width, height)) + PrimitivesEntries(Issued(cmds[i], x, y, width, height))
  {
    assert cmds[..i + 1] == cmds[..i] + [cmds[i]];
    GlyphPrimitivesSnoc(cmds[..i], cmds[i], x, y, width, height);
    PrimitivesEntriesAppend(GlyphPrimitives(cmds[..i], x, y, width, height), Issued(cmds[i], x, y, width, height));
  }

  /** The comment a glyph drawn with `letter` is preceded by, given the current letter. */
  function LetterEntries(current: Option<char>, letter: Option<char>): seq<PsEntry> {
    if StartsLetter(current, letter) then [LetterComment(letter.value)] else []
  }

  /** The lines `draw_glyph` appends with options `o` and current letter `current`. */
  function GlyphEntries(o: DrawOptions, current: Option<char>, glyph: Glyph, x: real, y: real, scale: real, letter: Option<char>): seq<PsEntry> {
    LetterEntries(current, letter) + PrimitivesEntries(DrawnPrimitives(o, glyph, x, y, scale))
  }

  /** The lines a run of layout calls appends, starting with current letter `current`. */
  function TextEntries(o: DrawOptions, current: Option<char>, calls: seq<GlyphCall>): seq<PsEntry>
    decreases |calls|
  {
    if calls == [] then []
    else
      var init := calls[..|calls| - 1];
      var c := calls[|calls| - 1];
      TextEntries(o, current, init)
        + GlyphEntries(o, LetterAfter(current, CallLetters(init)), c.glyph, c.x, c.y, c.scale, Some(c.letter))
  }

  /** Drawing one more call of a text appends that call's lines and moves the current letter on. */
  lemma TextStep(o: DrawOptions, current: Option<char>, calls: seq<GlyphCall>, i: nat)
    requires i < |calls|
    ensures TextEntries(o, current, calls[..i + 1])
            == TextEntries(o, current, calls[..i])
               + GlyphEntries(o, LetterAfter(current, CallLetters(calls[..i])), calls[i].glyph, calls[i].x, calls[i].y, calls[i].scale, Some(calls[i].letter))
    ensures LetterAfter(current, CallLetters(calls[..i + 1]))
            == NextLetter(LetterAfter(current, CallLetters(calls[..i])), Some(calls[i].letter))
  {
    assert calls[..i + 1][..i] == calls[..i];
    assert CallLetters(calls[..i + 1])[..i] == CallLetters(calls[..i]);
  }

  /** The whole program for a text: header, the text's lines, and the closing `showpage`. */
  function Document(o: DrawOptions, calls: seq<GlyphCall>): seq<PsEntry> {
    Header(o) + TextEntries(o, None, calls) + [ShowPage]
  }

  /** The letters of the comments among `entries`, in order. */
  function Comments(entries: seq<PsEntry>): seq<char>
    decreases |entries|
  {
    if entries == [] then []
    else
      var last := entries[|entries| - 1];
      Comments(entries[..|entries| - 1]) + if last.LetterComment? then [last.letter] else []
  }

  lemma {:induction false} CommentsAppend(a: seq<PsEntry>, b: seq<PsEntry>)
    ensures Comments(a + b) == Comments(a) + Comments(b)
    decreases |b|
  {
    if b == [] {
      assert a + b == a;
    } else {
      var init := b[..|b| - 1];
      CommentsAppend(a, init);
      assert (a + b)[..|a + b| - 1] == a + init;
    }
  }

  /** A run of lines without a letter comment has no comments. */
  lemma {:induction false} NoCommentsIn(entries: seq<PsEntry>)
    requires forall k :: 0 <= k < |entries| ==> !entries[k].LetterComment?
    ensures Comments(entries) == []
    decreases |entries|
  {
    if entries != [] {
      NoCommentsIn(entries[..|entries| - 1]);
    }
  }

  /** Drawing primitives never writes a letter comment. */
  lemma {:induction false} PrimitivesHaveNoComments(prims: seq<Primitive>)
    ensures Comments(PrimitivesEntries(prims)) == []
    decreases |prims|
  {
    if prims != [] {
      var last := prims[|prims| - 1];
      PrimitivesHaveNoComments(prims[..|prims| - 1]);
      CommentsAppend(PrimitivesEntries(prims[..|prims| - 1]), PrimitiveEntries(last));
      NoCommentsIn(PrimitiveEntries(last));
    }
  }

  /** The comment before a glyph is its letter exactly when the glyph starts a new letter. */
  lemma LetterComments(current: Option<char>, letter: Option<char>)
    ensures Comments(LetterEntries(current, letter)) == if StartsLetter(current, letter) then [letter.value] else []
  {
    if StartsLetter(current, letter) {
      assert [LetterComment(letter.value)][..0] == [];
    }
  }

  /** The strokes of a glyph read back as its primitives; the letter comment before them reads as nothing. */
  lemma GlyphReadBack(o: DrawOptions, current: Option<char>, glyph: Glyph, x: real, y: real, scale: real, letter: Option<char>)
    ensures ReadPaths(GlyphEntries(o, current, glyph, x, y, scale, letter)) == Traced(DrawnPrimitives(o, glyph, x, y, scale))
  {
    var before := LetterEntries(current, letter);
    ReadPathsAppend(before, DrawnPrimitives(o, glyph, x, y, scale));
    assert ReadPaths(before) == [];
  }

  /** The comments of one glyph: one for its letter if it starts a new one, none otherwise. */
  lemma GlyphComments(o: DrawOptions, current: Option<char>, glyph: Glyph, x: real, y: real, scale: real, letter: Option<char>)
    ensures Comments(GlyphEntries(o, current, glyph, x, y, scale, letter))
            == if StartsLetter(current, letter) then [letter.value] else []
  {
    var prims := DrawnPrimitives(o, glyph, x, y, scale);
    CommentsAppend(LetterEntries(current, letter), PrimitivesEntries(prims));
    PrimitivesHaveNoComments(prims);
    LetterComments(current, letter);
  }

  /**
   * The comments of a drawn text are exactly the letters letter tracking
   * starts: one per run of equal letters.
   */
  lemma {:induction false} TextComments(o: DrawOptions, current: Option<char>, calls: seq<GlyphCall>)
    ensures Comments(TextEntries(o, current, calls)) == StartedLetters(current, CallLetters(calls))
    decreases |calls|
  {
    if calls != [] {
      var init := calls[..|calls| - 1];
      var c := calls[|calls| - 1];
      TextComments(o, current, init);
      assert CallLetters(calls)[..|calls| - 1] == CallLetters(init);
      var cur := LetterAfter(current, CallLetters(init));
      CommentsAppend(TextEntries(o, current, init), GlyphEntries(o, cur, c.glyph, c.x, c.y, c.scale, Some(c.letter)));
      GlyphComments(o, cur, c.glyph, c.x, c.y, c.scale, Some(c.letter));
    }
  }

  /** A whole program starts with the header and ends with `showpage`. */
  lemma DocumentShape(o: DrawOptions, calls: seq<GlyphCall>)
    ensures Document(o, calls)[..5] == Header(o)
    ensures Document(o, calls)[|Document(o, calls)| - 1] == ShowPage
  {
    var h := Header(o);
    var t := TextEntries(o, None, calls);
    assert Document(o, calls) == h + (t + [ShowPage]);
  }

  /** The header and `showpage` carry no comments, so a program's comments are its text's. */
  lemma DocumentCommentsAreText(o: DrawOptions, calls: seq<GlyphCall>)
    ensures Comments(Document(o, calls)) == Comments(TextEntries(o, None, calls))
  {
    var h := Header(o);
    var t := TextEntries(o, None, calls);
    assert Comments(h) == [] && Comments([ShowPage]) == [] by {
      NoCommentsIn(h);
      NoCommentsIn([ShowPage]);
    }
    CommentsAppend(h + t, [ShowPage]);
    CommentsAppend(h, t);
  }

  /**
   * A whole program starts with the header and ends with `showpage`, and its
   * letter comments never repeat a letter twice in a row.
   */
  lemma DocumentComments(o: DrawOptions, calls: seq<GlyphCall>)
    ensures Document(o, calls)[..5] == Header(o)
    ensures Document(o, calls)[|Document(o, calls)| - 1] == ShowPage
    ensures Comments(Document(o, calls)) == StartedLetters(None, CallLetters(calls))
    ensures NoAdjacentRepeats(Comments(Document(o, calls)))
  {
    DocumentShape(o, calls);
    DocumentCommentsAreText(o, calls);
    TextComments(o, None, calls);
    StartedLettersDeduplicate(None, CallLetters(calls));
  }

  /**
   * The state a drawing keeps: the program starts with its header, its
   * letter comments never repeat a letter twice in a row, and the current
   * letter is the last one commented, or none before the first comment.
   */
  predicate Consistent(o: DrawOptions, commands: seq<PsEntry>, current: Option<char>) {
    && |commands| >= 5 && commands[..5] == Header(o)
    && NoAdjacentRepeats(Comments(commands))
    && current == if Comments(commands) == [] then None else Some(Comments(commands)[|Comments(commands)| - 1])
  }

  /** A new drawing is consistent. */
  lemma HeaderConsistent(o: DrawOptions)
    ensures Consistent(o, Header(o), None)
  {
    NoCommentsIn(Header(o));
  }

  /** Appending lines that comment exactly the letter a glyph starts keeps a drawing consistent. */
  lemma ExtendKeepsConsistent(o: DrawOptions, commands: seq<PsEntry>, current: Option<char>,
                              entries: seq<PsEntry>, letter: Option<char>)
    requires Consistent(o, commands, current)
    requires Comments(entries) == if StartsLetter(current, letter) then [letter.value] else []
    ensures Consistent(o, commands + entries, NextLetter(current, letter))
  {
    var after := commands + entries;
    assert after[..5] == commands[..5];
    var cs := Comments(commands);
    CommentsAppend(commands, entries);
    if StartsLetter(current, letter) {
      assert Comments(after) == cs + [letter.value];
      assert NoAdjacentRepeats(cs + [letter.value]) by {
        assert cs != [] ==> cs[|cs| - 1] != letter.value;
      }
    } else {
      assert Comments(after) == cs;
    }
  }

  /** Appending lines without a letter comment keeps a drawing consistent and its current letter. */
  lemma PlainKeepsConsistent(o: DrawOptions, commands: seq<PsEntry>, current: Option<char>, entries: seq<PsEntry>)
    requires Consistent(o, commands, current)
    requires forall k :: 0 <= k < |entries| ==> !entries[k].LetterComment?
    ensures Consistent(o, commands + entries, current)
  {
    NoCommentsIn(entries);
    ExtendKeepsConsistent(o, commands, current, entries, None);
  }

  /** Appending the strokes of primitives keeps a drawing consistent and its current letter. */
  lemma PrimitivesKeepConsistent(o: DrawOptions, commands: seq<PsEntry>, current: Option<char>, prims: seq<Primitive>)
    requires Consistent(o, commands, current)
    ensures Consistent(o, commands + PrimitivesEntries(prims), current)
  {
    PrimitivesHaveNoComments(prims);
    ExtendKeepsConsistent(o, commands, current, PrimitivesEntries(prims), None);
  }

  /** Drawing a glyph keeps a drawing consistent. */
  lemma GlyphKeepsConsistent(o: DrawOptions, commands: seq<PsEntry>, current: Option<char>,
                             glyph: Glyph, x: real, y: real, scale: real, letter: Option<char>)
    requires Consistent(o, commands, current)
    ensures Consistent(o, commands + GlyphEntries(o, current, glyph, x, y, scale, letter), NextLetter(current, letter))
  {
    GlyphComments(o, current, glyph, x, y, scale, letter);
    ExtendKeepsConsistent(o, commands, current, GlyphEntries(o, current, glyph, x, y, scale, letter), letter);
  }

  class PostScriptDrawing {
    const options: DrawOptions
    var commands: seq<PsEntry>
    var currentLetter: Option<char>

    /**
     * The program keeps its header, its letter comments never repeat a
     * letter twice in a row, and the current letter is the last one
     * commented, or none before the first comment.
     */
    predicate Valid()
      reads this
    {
      Consistent(options, commands, currentLetter)
    }

    /** A new drawing: the defaults merged with `user`, the header, and no current letter. */
    constructor (user: UserOptions)
      ensures options == MergeOptions(user)
      ensures commands == Header(options)
      ensures currentLetter == None
      ensures Valid()
    {
      options := MergeOptions(user);
      commands := Header(MergeOptions(user));
      currentLetter := None;
      new;
      HeaderConsistent(options);
    }

    method Arc(x: real, y: real, radius: real, startAngle: real, endAngle: real)
      requires Valid()
      modifies this`commands
      ensures commands == old(commands) + [NewPath, ArcOp(x, y, radius, startAngle, endAngle), Stroke]
      ensures Valid()
    {
      PlainKeepsConsistent(options, commands, currentLetter, [NewPath, ArcOp(x, y, radius, startAngle, endAngle), Stroke]);
      commands := commands + [NewPath];
      commands := commands + [ArcOp(x, y, radius, startAngle, endAngle)];
      commands := commands + [Stroke];
    }

    method Line(x1: real, y1: real, x2: real, y2: real)
      requires Valid()
      modifies this`commands
      ensures commands == old(commands) + [NewPath, NewPathMoveTo(x1, y1), LineTo(x2, y2), Stroke]
      ensures Valid()
    {
      PlainKeepsConsistent(options, commands, currentLetter, [NewPath, NewPathMoveTo(x1, y1), LineTo(x2, y2), Stroke]);
      commands := commands + [NewPath];
      commands := commands + [NewPathMoveTo(x1, y1)];
      commands := commands + [LineTo(x2, y2)];
      commands := commands + [Stroke];
    }

    /** The inherited circle: a full arc. */
    method Circle(x: real, y: real, radius: real)
      requires Valid()
      modifies this`commands
      ensures commands == old(commands) + PrimitiveEntries(CirclePrim(x, y, radius))
      ensures commands == old(commands) + PrimitiveEntries(ArcPrim(x, y, radius, 0.0, 360.0))
      ensures Valid()
    {
      Arc(x, y, radius, 0.0, 360.0);
    }

    /** Appends `showpage` and returns the whole program. */
    method Render() returns (output: seq<PsEntry>)
      requires Valid()
      modifies this`commands
      ensures commands == old(commands) + [ShowPage]
      ensures output == commands
      ensures Valid()
    {
      PlainKeepsConsistent(options, commands, currentLetter, [ShowPage]);
      commands := commands + [ShowPage];
      output := commands;
    }

    /** The back end call for one primitive. */
    method DrawPrimitive(p: Primitive)
      requires Valid()
      modifies this`commands
      ensures commands == old(commands) + PrimitiveEntries(p)
      ensures Valid()
    {
      match p
      case LinePrim(x1, y1, x2, y2) => Line(x1, y1, x2, y2);
      case ArcPrim(cx, cy, radius, s, e) => Arc(cx, cy, radius, s, e);
      case CirclePrim(cx, cy, radius) => Circle(cx, cy, radius);
    }

    /** The primitive call of one glyph command, if it has a drawable type. */
    method DrawCommand(c: Command, x: real, y: real, width: real, height: real)
      requires Valid()
      modifies this`commands
      ensures commands == old(commands) + PrimitivesEntries(Issued(c, x, y, width, height))
      ensures Valid()
    {
      var primitive := MapCommand(c, x, y, width, height);
      if primitive.Some? {
        assert Issued(c, x, y, width, height) == [primitive.value];
        assert PrimitivesEntries([primitive.value]) == PrimitiveEntries(primitive.value) by {
          PrimitivesEntriesSnoc([], primitive.value);
        }
        DrawPrimitive(primitive.value);
      }
    }

    /** The loop of the inherited `draw_glyph`: one primitive call per drawable command, in order. */
    method DrawCommands(cmds: seq<Command>, x: real, y: real, width: real, height: real)
      requires Valid()
      modifies this`commands
      ensures commands == old(commands) + PrimitivesEntries(GlyphPrimitives(cmds, x, y, width, height))
      ensures Valid()
    {
      ghost var start := commands;
      var i := 0;
      while i < |cmds|
        invariant 0 <= i <= |cmds|
        invariant Consistent(options, start, currentLetter)
        invariant commands == start + PrimitivesEntries(GlyphPrimitives(cmds[..i], x, y, width, height))
      {
        ghost var done := PrimitivesEntries(GlyphPrimitives(cmds[..i], x, y, width, height));
        ghost var more := PrimitivesEntries(Issued(cmds[i], x, y, width, height));
        PrimitivesKeepConsistent(options, start, currentLetter, GlyphPrimitives(cmds[..i], x, y, width, height));
        CommandStep(cmds, i, x, y, width, height);
        AppendAssoc(start, done, more);
        DrawCommand(cmds[i], x, y, width, height);
        i := i + 1;
      }
      assert cmds[..i] == cmds;
      PrimitivesKeepConsistent(options, start, currentLetter, GlyphPrimitives(cmds, x, y, width, height));
    }

    /** Writes a letter comment and makes `letter` current when it starts a new letter. */
    method CommentLetter(letter: Option<char>)
      requires Valid()
      modifies this`commands, this`currentLetter
      ensures commands == old(commands) + LetterEntries(old(currentLetter), letter)
      ensures currentLetter == NextLetter(old(currentLetter), letter)
      ensures Valid()
    {
      LetterComments(currentLetter, letter);
      ExtendKeepsConsistent(options, commands, currentLetter, LetterEntries(currentLetter, letter), letter);
      if letter.Some? && letter != currentLetter {
        commands := commands + [LetterComment(letter.value)];
        currentLetter := letter;
      }
    }

    /** Draws a glyph, preceded by a letter comment when it starts a new letter. */
    method DrawGlyph(glyph: Glyph, x: real, y: real, scale: real, letter: Option<char>)
      requires Valid()
      modifies this`commands, this`currentLetter
      ensures commands == old(commands) + GlyphEntries(options, old(currentLetter), glyph, x, y, scale, letter)
      ensures currentLetter == NextLetter(old(currentLetter), letter)
      ensures Valid()
    {
      AppendAssoc(old(commands), LetterEntries(old(currentLetter), letter), PrimitivesEntries(DrawnPrimitives(options, glyph, x, y, scale)));
      CommentLetter(letter);
      var width := BoxWidth(options, scale);
      var height := BoxHeight(options, scale);
      DrawCommands(glyph.commands, x, y, width, height);
    }

    /** Performs the calls of a text layout's `draw`, in order. */
    method DrawText(calls: seq<GlyphCall>)
      requires Valid()
      modifies this`commands, this`currentLetter
      ensures commands == old(commands) + TextEntries(options, old(currentLetter), calls)
      ensures currentLetter == LetterAfter(old(currentLetter), CallLetters(calls))
      ensures Valid()
    {
      var i := 0;
      while i < |calls|
        invariant 0 <= i <= |calls|
        invariant Valid()
        invariant commands == old(commands) + TextEntries(options, old(currentLetter), calls[..i])
        invariant currentLetter == LetterAfter(old(currentLetter), CallLetters(calls[..i]))
      {
        var c := calls[i];
        TextStep(options, old(currentLetter), calls, i);
        AppendAssoc(old(commands), TextEntries(options, old(currentLetter), calls[..i]),
                    GlyphEntries(options, currentLetter, c.glyph, c.x, c.y, c.scale, Some(c.letter)));
        DrawGlyph(c.glyph, c.x, c.y, c.scale, Some(c.letter));
        i := i + 1;
      }
      assert calls[..i] == calls;
    }
  }
}
