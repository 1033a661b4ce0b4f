/**
 * The glyph DSL: a registry of glyphs keyed by their lower-cased name, and
 * the builder a definition block runs against. Coordinates are normalised to
 * 0..100 within the glyph's box.
 *
 * A definition block is Ruby code evaluated against the builder; here it is
 * the sequence of builder calls it makes, in order.
 */
module GlyphDsl {
  import opened Options

  /** Base spacing between letters, before scaling. */
  const GLYPH_SPACING: real := 20.0
  /** The default, and largest, width restriction in percent. */
  const FULL_WIDTH: real := 100.0

  /** One recorded stroke command; `Other` is any command type the builder never records. */
  datatype Command =
    | Line(x1: real, y1: real, x2: real, y2: real)
    | Arc(x: real, y: real, radius: real, startAngle: real, endAngle: real)
    | Circle(x: real, y: real, radius: real)
    | Other(kind: string)

  /** A registry entry: the commands in call order and the width restriction. */
  datatype Glyph = Glyph(commands: seq<Command>, widthRestriction: real)

  /** A glyph name as the caller gives it: a string or a symbol; `to_s` is its text. */
  datatype Name = Str(s: string) | Sym(s: string)

  /** One call a definition block makes on the builder. */
  datatype BuilderCall =
    | LineCall(x1: real, y1: real, x2: real, y2: real)
    | ArcCall(x: real, y: real, radius: real, startAngle: real, endAngle: real)
    | CircleCall(x: real, y: real, radius: real)
    | RestrictWidthCall(widthPercent: real)
    | VerticalLineCall(x: real, y1: real, y2: real)
    | HorizontalLineCall(x1: real, x2: real, y: real)

  predicate IsUpper(c: char) {
    'A' <= c <= 'Z'
  }

  /** `downcase` of one character (ASCII letters only). */
  function DowncaseChar(c: char): (d: char)
    ensures !IsUpper(d)
    ensures IsUpper(c) ==> d as int == c as int + 32
    ensures !IsUpper(c) ==> d == c
  {
    if IsUpper(c) then (c as int + 32) as char else c
  }

  /** `downcase` of a string, character by character. */
  function Downcase(s: string): (r: string)
    ensures |r| == |s|
    ensures forall i :: 0 <= i < |s| ==> r[i] == DowncaseChar(s[i])
  {
    if s == [] then [] else [DowncaseChar(s[0])] + Downcase(s[1..])
  }

  /** The registry key of a name: `name.to_s.downcase`. */
  function Key(name: Name): string {
    Downcase(name.s)
  }

  /** Down-casing a down-cased string changes nothing. */
  lemma DowncaseIdempotent(s: string)
    ensures Downcase(Downcase(s)) == Downcase(s)
  {
    var d := Downcase(s);
    assert forall i :: 0 <= i < |d| ==> Downcase(d)[i] == d[i];
  }

  /** The glyph stored under `name`'s key, or nothing. */
  function Lookup(glyphs: map<string, Glyph>, name: Name): (r: Option<Glyph>)
    ensures r.Some? <==> Key(name) in glyphs
    ensures r.Some? ==> r.value == glyphs[Key(name)]
  {
    var key := Key(name);
    if key in glyphs then Some(glyphs[key]) else None
  }

  /**
   * Lookup ignores letter case and whether the name is a symbol or a string:
   * a name and its down-cased spelling, of either kind, find the same entry.
   */
  lemma LookupIgnoresCase(glyphs: map<string, Glyph>, name: Name)
    ensures Lookup(glyphs, Str(Downcase(name.s))) == Lookup(glyphs, name)
    ensures Lookup(glyphs, Sym(Downcase(name.s))) == Lookup(glyphs, name)
  {
    DowncaseIdempotent(name.s);
  }

  /** `[[0, w].max, 100].min`. */
  function Clamp(w: real): (r: real)
    ensures 0.0 <= r <= FULL_WIDTH
    ensures 0.0 <= w <= FULL_WIDTH ==> r == w
    ensures w < 0.0 ==> r == 0.0
    ensures w > FULL_WIDTH ==> r == FULL_WIDTH
  {
    var atLeastZero := if w < 0.0 then 0.0 else w;
    if atLeastZero > FULL_WIDTH then FULL_WIDTH else atLeastZero
  }

  /** The command a builder call appends, or None for `restrict_width`. */
  function Recorded(call: BuilderCall): Option<Command> {
    match call
    case LineCall(x1, y1, x2, y2) => Some(Line(x1, y1, x2, y2))
    case ArcCall(x, y, r, s, e) => Some(Arc(x, y, r, s, e))
    case CircleCall(x, y, r) => Some(Circle(x, y, r))
    case RestrictWidthCall(_) => None
    case VerticalLineCall(x, y1, y2) => Some(Line(x, y1, x, y2))
    case HorizontalLineCall(x1, x2, y) => Some(Line(x1, y, x2, y))
  }

  /** What one builder call does to the glyph under construction. */
  function Step(g: Glyph, call: BuilderCall): Glyph {
    match Recorded(call)
    case Some(c) => g.(commands := g.commands + [c])
    case None => g.(widthRestriction := Clamp(call.widthPercent))
  }

  /** The glyph a definition block builds: its calls applied in order to an empty, full-width glyph. */
  function Build(block: seq<BuilderCall>): Glyph
    decreases |block|
  {
    if block == [] then Glyph([], FULL_WIDTH)
    else Step(Build(block[..|block| - 1]), block[|block| - 1])
  }

  /** The commands of a block's calls in call order: one per drawing call, none for `restrict_width`. */
  function RecordedCommands(block: seq<BuilderCall>): seq<Command>
    decreases |block|
  {
    if block == [] then []
    else (match Recorded(block[0]) case Some(c) => [c] case None => []) + RecordedCommands(block[1..])
  }

  lemma {:induction false} RecordedCommandsAppend(block: seq<BuilderCall>, call: BuilderCall)
    ensures RecordedCommands(block + [call])
            == RecordedCommands(block) + (match Recorded(call) case Some(c) => [c] case None => [])
    decreases |block|
  {
    if block != [] {
      assert (block + [call])[1..] == block[1..] + [call];
      RecordedCommandsAppend(block[1..], call);
    }
  }

  /** Each drawing call of a block appends exactly one command, in call order. */
  lemma {:induction false} BuildCommands(block: seq<BuilderCall>)
    ensures Build(block).commands == RecordedCommands(block)
    decreases |block|
  {
    if block != [] {
      var init := block[..|block| - 1];
      BuildCommands(init);
      RecordedCommandsAppend(init, block[|block| - 1]);
      assert init + [block[|block| - 1]] == block;
    }
  }

  /** A built glyph holds only line, arc and circle commands. */
  lemma {:induction false} BuildIsDrawable(block: seq<BuilderCall>)
    ensures forall k :: 0 <= k < |Build(block).commands| ==> !Build(block).commands[k].Other?
    decreases |block|
  {
    if block != [] {
      BuildIsDrawable(block[..|block| - 1]);
    }
  }

  /**
   * The width restriction of a built glyph: 100 when the block never calls
   * `restrict_width`, otherwise the clamped argument of its last such call.
   */
  lemma {:induction false} BuildWidth(block: seq<BuilderCall>)
    ensures 0.0 <= Build(block).widthRestriction <= FULL_WIDTH
    ensures (forall k :: 0 <= k < |block| ==> !block[k].RestrictWidthCall?)
            ==> Build(block).widthRestriction == FULL_WIDTH
    ensures forall k :: 0 <= k < |block| && block[k].RestrictWidthCall?
                        && (forall j :: k < j < |block| ==> !block[j].RestrictWidthCall?)
                        ==> Build(block).widthRestriction == Clamp(block[k].widthPercent)
    decreases |block|
  {
    if block != [] {
      var n := |block| - 1;
      var init := block[..n];
      BuildWidth(init);
      if !block[n].RestrictWidthCall? {
        assert Build(block).widthRestriction == Build(init).widthRestriction;
        forall k | 0 <= k < |block| && block[k].RestrictWidthCall?
                   && (forall j :: k < j < |block| ==> !block[j].RestrictWidthCall?)
          ensures Build(block).widthRestriction == Clamp(block[k].widthPercent)
        {
          assert k < n && init[k] == block[k];
          assert forall j :: k < j < |init| ==> init[j] == block[j];
        }
      }
    }
  }

  /** The builder a definition block runs against. */
  class GlyphBuilder {
    var glyph: seq<Command>
    var widthRestriction: real

    /** Starts from the given command list at full width. */
    constructor (glyph: seq<Command>)
      ensures this.glyph == glyph && widthRestriction == FULL_WIDTH
    {
      this.glyph := glyph;
      widthRestriction := FULL_WIDTH;
    }

    method Line(x1: real, y1: real, x2: real, y2: real)
      modifies this
      ensures glyph == old(glyph) + [Command.Line(x1, y1, x2, y2)]
      ensures widthRestriction == old(widthRestriction)
    {
      glyph := glyph + [Command.Line(x1, y1, x2, y2)];
    }

    method Arc(x: real, y: real, radius: real, startAngle: real, endAngle: real)
      modifies this
      ensures glyph == old(glyph) + [Command.Arc(x, y, radius, startAngle, endAngle)]
      ensures widthRestriction == old(widthRestriction)
    {
      glyph := glyph + [Command.Arc(x, y, radius, startAngle, endAngle)];
    }

    method Circle(x: real, y: real, radius: real)
      modifies this
      ensures glyph == old(glyph) + [Command.Circle(x, y, radius)]
      ensures widthRestriction == old(widthRestriction)
    {
      glyph := glyph + [Command.Circle(x, y, radius)];
    }

    /** Sets the width restriction to the argument clamped into 0..100; the last call wins. */
    method RestrictWidth(widthPercent: real)
      modifies this
      ensures widthRestriction == Clamp(widthPercent)
      ensures glyph == old(glyph)
    {
      widthRestriction := Clamp(widthPercent);
    }

    /** The line from (x, y1) to (x, y2). */
    method VerticalLine(x: real, y1: real, y2: real)
      modifies this
      ensures glyph == old(glyph) + [Command.Line(x, y1, x, y2)]
      ensures widthRestriction == old(widthRestriction)
    {
      Line(x, y1, x, y2);
    }

    /** The line from (x1, y) to (x2, y). */
    method HorizontalLine(x1: real, x2: real, y: real)
      modifies this
      ensures glyph == old(glyph) + [Command.Line(x1, y, x2, y)]
      ensures widthRestriction == old(widthRestriction)
    {
      Line(x1, y, x2, y);
    }

    /** Makes one call of a definition block. */
    method Perform(call: BuilderCall)
      modifies this
      ensures Glyph(glyph, widthRestriction) == Step(Glyph(old(glyph), old(widthRestriction)), call)
    {
      match call
      case LineCall(x1, y1, x2, y2) => Line(x1, y1, x2, y2);
      case ArcCall(x, y, r, s, e) => Arc(x, y, r, s, e);
      case CircleCall(x, y, r) => Circle(x, y, r);
      case RestrictWidthCall(w) => RestrictWidth(w);
      case VerticalLineCall(x, y1, y2) => VerticalLine(x, y1, y2);
      case HorizontalLineCall(x1, x2, y) => HorizontalLine(x1, x2, y);
    }
  }

  /** The module-wide glyph table. */
  class GlyphRegistry {
    var glyphs: map<string, Glyph>

    constructor ()
      ensures glyphs == map[]
    {
      glyphs := map[];
    }

    /**
     * Runs `block` against a fresh builder and stores the result under the
     * down-cased name, replacing any earlier entry with that key; every other
     * entry stays.
     */
    method DefineGlyph(name: Name, block: seq<BuilderCall>)
      modifies this
      ensures glyphs == old(glyphs)[Key(name) := Build(block)]
    {
      var builder := new GlyphBuilder([]);
      var i := 0;
      while i < |block|
        invariant i <= |block|
        invariant Glyph(builder.glyph, builder.widthRestriction) == Build(block[..i])
        invariant glyphs == old(glyphs)
      {
        builder.Perform(block[i]);
        assert block[..i + 1][..i] == block[..i];
        i := i + 1;
      }
      assert block[..i] == block;
      glyphs := glyphs[Key(name) := Glyph(builder.glyph, builder.widthRestriction)];
    }

    /** The entry for `name`, or nothing if no glyph was defined under its key. */
    function GetGlyph(name: Name): Option<Glyph>
      reads this
    {
      Lookup(glyphs, name)
    }
  }

  /** A name that was never defined finds nothing. */
  method GetUndefined(name: Name) returns (r: Option<Glyph>)
    ensures r == None
  {
    var registry := new GlyphRegistry();
    r := registry.GetGlyph(name);
  }

  /**
   * Defining a glyph twice under names with the same key keeps only the
   * second definition, and any spelling with that key finds it.
   */
  method RedefineReplaces(first: Name, second: Name, asked: Name, oldBlock: seq<BuilderCall>, newBlock: seq<BuilderCall>)
    returns (r: Option<Glyph>)
    requires Key(first) == Key(second) == Key(asked)
    ensures r == Some(Build(newBlock))
  {
    var registry := new GlyphRegistry();
    registry.DefineGlyph(first, oldBlock);
    registry.DefineGlyph(second, newBlock);
    r := registry.GetGlyph(asked);
  }

  /** The definition block of the letter r: a stem, a quarter arc, and a width of 10 percent. */
  const LETTER_R: seq<BuilderCall> := [VerticalLineCall(0.0, 0.0, 100.0), ArcCall(0.0, 50.0, 50.0, 0.0, 90.0), RestrictWidthCall(10.0)]

  lemma LetterRGlyph()
    ensures Build(LETTER_R) == Glyph([Line(0.0, 0.0, 0.0, 100.0), Arc(0.0, 50.0, 50.0, 0.0, 90.0)], 10.0)
  {
    var stem := Line(0.0, 0.0, 0.0, 100.0);
    assert LETTER_R[..1][..0] == [];
    assert Build(LETTER_R[..1]) == Glyph([stem], FULL_WIDTH);
    assert LETTER_R[..2][..1] == LETTER_R[..1];
    assert Build(LETTER_R[..2]) == Glyph([stem, Arc(0.0, 50.0, 50.0, 0.0, 90.0)], FULL_WIDTH);
    assert LETTER_R[..3][..2] == LETTER_R[..2];
    assert LETTER_R[..3] == LETTER_R;
  }
}
