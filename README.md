# Video mosaic and glyph renderers, modelled in Dafny

This project models two parts of the genuary-2026 sketches.

**Day 4: the progressive video mosaic (Rust).**
- `SharedFrame` is a single-slot, latest-wins hand-off from the capture callback to the render loop.
- `VideoRenderer` keeps a persistent RGBA canvas of 1280 x 1024 pixels.
- `update` is a 200 ms timer that moves only the timestamp and a frame counter.
- `update_random_squares` draws one square size in 6..=128. It then copies 20 squares of that size, with origins aligned to 32 pixels, from a source frame into the canvas, byte by byte, behind a bounds guard.
- The CPU part of `render` takes the slot's frame. It runs the copy only when the frame is exactly `FRAME_SIZE` bytes long.

**Day 5: the glyph pipeline (Ruby).**
- `GlyphDSL` is a registry of glyphs keyed by their down-cased name, together with the builder that definition blocks run against.
- `TextLayout#draw` walks a string with a cursor and issues one `draw_glyph` call per character that has a glyph.
- `DrawingInterface#draw_glyph` maps a glyph's 0..100 commands into the glyph box and calls `line`, `arc` and `circle`.
- The PostScript back end writes a header, strokes, and one letter comment per run of equal letters.
- The SVG back end flips the y axis and wraps each run of equal letters in a `<g>` group, which it closes when the next letter starts or the drawing is rendered.

## Module layout

| file | module | models |
|---|---|---|
| options.dfy | `Options` | `Option<T>` |
| video_capture.dfy | `VideoCapture` | the frame slot, and the resolution constants |
| mosaic.dfy | `Mosaic` | specification functions of one pass on values: the squares drawn, and which bytes they copy |
| renderer.dfy | `Renderer` | class `VideoRenderer`, whose canvas is an `array<bv8>`, proved against `Mosaic` |
| glyph_dsl.dfy | `GlyphDsl` | `GlyphBuilder`, and `GlyphRegistry` with its `map` field |
| text_layout.dfy | `Layout` | class `TextLayout` and the calls `draw` issues |
| drawing_interface.dfy | `DrawingInterface` | option defaults, command-to-primitive mapping, letter tracking |
| postscript_drawing.dfy | `PostScript` | class `PostScriptDrawing` |
| svg_drawing.dfy | `Svg` | class `SvgDrawing` and its group state machine |
| back_ends.dfy | `BackEnds` | the two back ends draw the same outlines |
| sequences.dfy | `Sequences` | associativity of concatenation, called at appends |

**How the pieces are modelled.**
- Emitted lines are structured entries (`PsEntry`, `SvgEntry`) with `real` fields, not strings.
- Every back-end method is proved against a specification function of the entries it appends. Examples are `GlyphEntries`, `TextEntries` and `Document`.
- The properties are proved about those functions as lemmas and as class invariants:
  - the PostScript comments deduplicate
  - SVG groups are balanced, and at most one is open at a time
  - every public drawing method keeps its back end's invariant, whatever order the calls come in
  - read back, the SVG shapes of a glyph, with y flipped back, are the outlines PostScript strokes for it
- The random generator is an infinite stream of naturals plus the position of the next draw.
- Time is a count of nanoseconds passed in by the caller.

**Where the documentation and the code differ, the model follows the code.**
- The timer in `update` does not gate the square copy. `render` copies whenever a frame of the right length has arrived (day-4/src/renderer.rs:250-255).
- A frame of the wrong length is still taken from the slot, and then dropped.
- The `square_size: 32` field is set but never read. Each pass draws its own size.

## Model

| member | source | states |
|---|---|---|
| VideoCapture.SharedFrame.constructor | day-4/src/video_capture.rs:16-20 | a new slot holds nothing |
| VideoCapture.SharedFrame.Clone | day-4/src/video_capture.rs:10-13 | a cloned handle is the same slot, not a copy of the frame |
| VideoCapture.SharedFrame.SetCurrent | day-4/src/video_capture.rs:22-24 | afterwards the slot holds exactly the given frame, whatever it held before |
| VideoCapture.SharedFrame.TakeCurrent | day-4/src/video_capture.rs:26-28 | returns what the slot held and leaves it empty |
| VideoCapture.LatestWins | day-4/src/video_capture.rs:22-28 | after several sets with no take, the first take returns only the last frame and the second returns nothing |
| VideoCapture.TakeFromEmpty | day-4/src/video_capture.rs:26-28 | any number of takes from an empty slot all return nothing |
| VideoCapture.ClonesShareSlot | day-4/src/video_capture.rs:10-28 | a frame set through one handle is taken through the other, and then through neither |
| Mosaic.SquareSize | day-4/src/renderer.rs:214 | the drawn edge length lies in 6..=128, and every value of that range is reachable |
| Mosaic.AlignDown | day-4/src/renderer.rs:223-224 | clearing the low five bits yields the largest multiple of 32 not above the value |
| Mosaic.Origin | day-4/src/renderer.rs:223-224 | an origin is a multiple of 32 and lies strictly below the dimension minus the size |
| Mosaic.PassSquare | day-4/src/renderer.rs:214-224 | square k takes the pass's size and draws 2k+1 and 2k+2 after it, and is aligned and strictly inside the canvas |
| Mosaic.PassPrefix | day-4/src/renderer.rs:221-224 | the first n squares of a pass, in drawing order |
| Mosaic.PassSquares | day-4/src/renderer.rs:211-224 | a pass has 20 squares, all placed inside the canvas, all of one size |
| Mosaic.PrefixStep | day-4/src/renderer.rs:227-229 | copying one more column of a row adds exactly the four bytes at `((y+dy)*width + x+dx)*4` |
| Mosaic.PrefixRow | day-4/src/renderer.rs:227-228 | a finished row is where the next row starts |
| Mosaic.PixelIndex | day-4/src/renderer.rs:229 | the pixel at column x+dx of row y+dy is number `(y+dy)*width + x+dx`; its first byte is four times that (definition) |
| Mosaic.CopySquare | day-4/src/renderer.rs:227-237 | one square keeps the canvas length and copies exactly the guarded bytes of its pixels |
| Mosaic.Guarded | day-4/src/renderer.rs:230 | a byte is written only when the last byte of its pixel exists in both the source and the canvas (definition) |
| Mosaic.CopySquares | day-4/src/renderer.rs:221-237 | squares are applied in order and keep the canvas length |
| Mosaic.CopySquaresSnoc | day-4/src/renderer.rs:221-237 | one more square is one more copy, applied after the others |
| Mosaic.CopySquaresAt | day-4/src/renderer.rs:221-237 | after a run of squares, a byte some square copied equals the source byte at that index and exists in the source; every other byte is unchanged |
| Mosaic.PlacedSquareInCanvas | day-4/src/renderer.rs:223-229 | every byte of every pixel of a placed square is inside a frame-sized buffer |
| Mosaic.FullFrameGuard | day-4/src/renderer.rs:229-230 | with frame-sized source and canvas, the bounds guard never skips a byte |
| Mosaic.PassOverFullFrame | day-4/src/renderer.rs:250-255 | a pass over a frame-sized source copies exactly the bytes inside its squares and leaves every other byte alone |
| Renderer.Elapsed | day-4/src/renderer.rs:198-200 | the elapsed time saturates at zero when the clock reads earlier than the last update |
| Renderer.Due | day-4/src/renderer.rs:200-202 | a tick is due exactly when at least 200 ms have passed since the last update |
| Renderer.VideoRenderer.constructor | day-4/src/renderer.rs:174-192 | the canvas is FRAME_SIZE zero bytes, the counter is 0, the timer starts now, the generator sits at its start, and `square_size` is 32 |
| Renderer.VideoRenderer.Update | day-4/src/renderer.rs:196-208 | before the interval nothing changes; otherwise the timer restarts at now and the counter goes up by exactly one |
| Renderer.VideoRenderer.NextRandom | day-4/src/renderer.rs:214 | one draw returns the next element of the stream and advances it by one |
| Renderer.VideoRenderer.CopyPixel | day-4/src/renderer.rs:229-235 | copies the four bytes of one pixel when both buffers hold them; every other byte is unchanged |
| Renderer.VideoRenderer.CopyRow | day-4/src/renderer.rs:228-236 | copies the guarded bytes of one row of a square and nothing else |
| Renderer.VideoRenderer.CopyBlock | day-4/src/renderer.rs:227-237 | the canvas afterwards is CopySquare of the canvas before |
| Renderer.VideoRenderer.CopyNextSquare | day-4/src/renderer.rs:222-237 | draws the two origin values of square k of the pass and copies exactly that square |
| Renderer.VideoRenderer.UpdateRandomSquares | day-4/src/renderer.rs:211-239 | the canvas afterwards is CopySquares of the pass's squares, and the pass consumes 41 draws |
| Renderer.VideoRenderer.Render | day-4/src/renderer.rs:241-285 | the slot is always emptied; the canvas changes only for a frame of exactly FRAME_SIZE bytes, and then by one pass; otherwise canvas and generator are untouched and it returns early |
| Renderer.BlankCanvas | day-4/src/renderer.rs:174 | FRAME_SIZE zero bytes |
| Renderer.FirstRender | day-4/src/renderer.rs:241-285 | a fresh renderer given a wrong-length frame stays blank; given a frame-sized one its canvas is the first pass over the blank canvas; the slot ends empty |
| Renderer.TimerTicks | day-4/src/renderer.rs:196-208 | an early tick is ignored and a late one moves the timer and the counter once |
| GlyphDsl.DowncaseChar | day-5/ruby/lib/glyph_dsl.rb:16 | down-casing maps A..Z to a..z and leaves every other character alone |
| GlyphDsl.Downcase | day-5/ruby/lib/glyph_dsl.rb:16 | a string is down-cased character by character and keeps its length |
| GlyphDsl.DowncaseIdempotent | day-5/ruby/lib/glyph_dsl.rb:16-24 | down-casing twice is the same as down-casing once |
| GlyphDsl.Lookup | day-5/ruby/lib/glyph_dsl.rb:23-27 | finds an entry exactly when the down-cased name is a key, and then returns that entry |
| GlyphDsl.LookupIgnoresCase | day-5/ruby/lib/glyph_dsl.rb:12-27 | a name, and its down-cased spelling as a string or as a symbol, find the same entry |
| GlyphDsl.Clamp | day-5/ruby/lib/glyph_dsl.rb:54-56 | the result lies in 0..100; values inside are kept, and values outside go to the nearer bound |
| GlyphDsl.RecordedCommandsAppend | day-5/ruby/lib/glyph_dsl.rb:41-65 | one more builder call appends its own command, if any, after the others |
| GlyphDsl.BuildCommands | day-5/ruby/lib/glyph_dsl.rb:41-65 | a built glyph's commands are one per drawing call, in call order, with `vertical_line` and `horizontal_line` recorded as lines |
| GlyphDsl.BuildIsDrawable | day-5/ruby/lib/glyph_dsl.rb:41-51 | a built glyph holds only line, arc and circle commands |
| GlyphDsl.BuildWidth | day-5/ruby/lib/glyph_dsl.rb:33-56 | the width restriction is 100 when `restrict_width` is never called, and otherwise the clamped argument of its last call |
| GlyphDsl.Build | day-5/ruby/lib/glyph_dsl.rb:12-19 | a block runs against a fresh builder: an empty command list at width 100, each call applied in order (definition; its contents are stated by BuildCommands and BuildWidth) |
| GlyphDsl.GlyphBuilder.constructor | day-5/ruby/lib/glyph_dsl.rb:33-36 | a builder starts on the given command list at full width |
| GlyphDsl.GlyphBuilder.Line | day-5/ruby/lib/glyph_dsl.rb:41-43 | appends exactly one line command with its parameters |
| GlyphDsl.GlyphBuilder.Arc | day-5/ruby/lib/glyph_dsl.rb:45-47 | appends exactly one arc command with its parameters |
| GlyphDsl.GlyphBuilder.Circle | day-5/ruby/lib/glyph_dsl.rb:49-51 | appends exactly one circle command with its parameters |
| GlyphDsl.GlyphBuilder.RestrictWidth | day-5/ruby/lib/glyph_dsl.rb:54-56 | sets the width restriction to the clamped argument and leaves the commands alone |
| GlyphDsl.GlyphBuilder.VerticalLine | day-5/ruby/lib/glyph_dsl.rb:59-61 | records the line (x, y1) to (x, y2) |
| GlyphDsl.GlyphBuilder.HorizontalLine | day-5/ruby/lib/glyph_dsl.rb:63-65 | records the line (x1, y) to (x2, y) |
| GlyphDsl.GlyphBuilder.Perform | day-5/ruby/lib/glyph_dsl.rb:41-65 | one call of a definition block does what `Step` says |
| GlyphDsl.GlyphRegistry.constructor | day-5/ruby/lib/glyph_dsl.rb:9 | the registry starts empty |
| GlyphDsl.GlyphRegistry.DefineGlyph | day-5/ruby/lib/glyph_dsl.rb:12-20 | stores the built glyph under the down-cased name, replacing any entry with that key and keeping every other entry |
| GlyphDsl.GlyphRegistry.GetGlyph | day-5/ruby/lib/glyph_dsl.rb:23-27 | the registry entry under the down-cased name, or nothing; its contract is Lookup's |
| GlyphDsl.GetUndefined | day-5/ruby/lib/glyph_dsl.rb:23-27 | a name that was never defined finds nothing |
| GlyphDsl.RedefineReplaces | day-5/ruby/lib/glyph_dsl.rb:12-27 | after two definitions under names with one key, every spelling of that key finds the second |
| GlyphDsl.LetterRGlyph | day-5/ruby/lib/glyphs/letters.rb:35-41 | the letter r is a stem and a quarter arc, with width restriction 10 |
| Layout.CallLetters | day-5/ruby/lib/text_layout.rb:28 | the letter argument of each call, in order |
| Layout.Advance | day-5/ruby/lib/text_layout.rb:30-41 | the cursor moves by the glyph width plus the base spacing times the width restriction over 100 (definition) |
| Layout.GlyphFor | day-5/ruby/lib/text_layout.rb:24 | a character is looked up by its one-character name (definition) |
| Layout.LayoutCalls | day-5/ruby/lib/text_layout.rb:20-43 | the calls `draw` issues: none for a character without a glyph, otherwise one at the cursor, after which the cursor moves by Advance (definition; stated by LayoutDrawsGlyphChars and LayoutAdvances) |
| Layout.LayoutDrawsGlyphChars | day-5/ruby/lib/text_layout.rb:20-28 | exactly the characters that have a glyph are drawn, in text order, each with its own glyph, at the layout's y and scale |
| Layout.LayoutAdvances | day-5/ruby/lib/text_layout.rb:20-43 | the first glyph is drawn at the layout's x, and each later glyph one advance of its predecessor further right |
| Layout.LayoutSkipsUnknown | day-5/ruby/lib/text_layout.rb:23-25 | a character without a glyph issues no call and does not move the cursor |
| Layout.TextLayout.constructor | day-5/ruby/lib/text_layout.rb:6-13 | base spacing is 20 times the spacing factor times the scale, the glyph width is 40 times the scale, and the text is empty |
| Layout.TextLayout.Text | day-5/ruby/lib/text_layout.rb:15-18 | replaces the text and returns the layout itself |
| Layout.TextLayout.Draw | day-5/ruby/lib/text_layout.rb:20-43 | the cursor loop issues exactly LayoutCalls for the current text, and changes nothing |
| Layout.DrawTwice | day-5/ruby/lib/text_layout.rb:20-43 | drawing twice issues the same calls both times |
| Layout.LayoutASpaceA | day-5/ruby/lib/text_layout.rb:20-43 | with glyphs for `a` and the space, "a a" is three calls, `a`, space, `a`, each one advance right of the one before |
| Layout.SpaceIsDrawn | day-5/ruby/lib/glyphs/letters.rb:4-6 | with the empty glyph the glyph table defines for the space, "a a" issues three calls, the middle one for the space with the empty glyph at full width; the space moves the cursor 40 + 20 and the first `a` 40 + 20·wr/100 |
| DrawingInterface.MergeOptions | day-5/ruby/lib/drawing_interface.rb:5-12 | each option is the caller's value when given, and the default otherwise |
| DrawingInterface.DefaultOptions | day-5/ruby/lib/drawing_interface.rb:6-11 | the defaults are line width 4, colour (0.2, 0.2, 0.2) and a 40 x 40 glyph box |
| DrawingInterface.PlaceSpansBox | day-5/ruby/lib/drawing_interface.rb:46-49 | normalised 0..100 maps into the box: 0 to its start, 100 to its end, 50 to its middle |
| DrawingInterface.MapCommand | day-5/ruby/lib/drawing_interface.rb:40-67 | a line, arc or circle command maps to one primitive, and any other type to none |
| DrawingInterface.Issued | day-5/ruby/lib/drawing_interface.rb:36-67 | one command issues at most one primitive |
| DrawingInterface.GlyphPrimitives | day-5/ruby/lib/drawing_interface.rb:36-68 | the primitives of a command list are each command's, in command order (definition; stated by PrimitivePerCommand and GlyphPrimitivesSnoc) |
| DrawingInterface.GlyphPrimitivesSnoc | day-5/ruby/lib/drawing_interface.rb:36-68 | one more command issues its primitive after those of the commands before it |
| DrawingInterface.PrimitivePerCommand | day-5/ruby/lib/drawing_interface.rb:36-68 | with no foreign types there is exactly one primitive per command, in command order, each the command mapped |
| DrawingInterface.OtherCommandsIgnored | day-5/ruby/lib/drawing_interface.rb:41-67 | a command of a foreign type issues nothing |
| DrawingInterface.GlyphTranslates | day-5/ruby/lib/drawing_interface.rb:46-66 | moving the glyph origin right by dx moves every primitive right by dx, keeping radii and angles |
| DrawingInterface.StartsLetter | day-5/ruby/lib/renderers/postscript_drawing.rb:38 | a glyph starts a new letter when a letter is given and differs from the current one (definition) |
| DrawingInterface.NextLetter | day-5/ruby/lib/renderers/postscript_drawing.rb:38-41 | a starting letter becomes current; otherwise the current letter stays (definition) |
| DrawingInterface.StartedLettersDeduplicate | day-5/ruby/lib/renderers/postscript_drawing.rb:38-41 | letter tracking never starts one letter twice in a row, nor the current one, and afterwards the current letter is the last one started |
| PostScript.PrimitiveEntries | day-5/ruby/lib/renderers/postscript_drawing.rb:17-28 | a line emits four entries and an arc three, each starting with `newpath` and ending with `stroke` |
| PostScript.Header | day-5/ruby/lib/renderers/postscript_drawing.rb:8-13 | the five opening lines: magic, bounding box 0 0 612 792, stroke, line width and colour (definition) |
| PostScript.PrimitivesEntriesSnoc | day-5/ruby/lib/renderers/postscript_drawing.rb:17-28 | one more primitive appends its own entries after the others |
| PostScript.PrimitivesEntriesAppend | day-5/ruby/lib/renderers/postscript_drawing.rb:17-28 | the entries of two runs of primitives are the entries of each, in order |
| PostScript.CommentsAppend | day-5/ruby/lib/renderers/postscript_drawing.rb:38-41 | the letter comments of two runs of entries are those of each, in order |
| PostScript.PrimitivesHaveNoComments | day-5/ruby/lib/renderers/postscript_drawing.rb:17-28 | strokes emit no letter comments |
| PostScript.LetterComments | day-5/ruby/lib/renderers/postscript_drawing.rb:38-41 | the line before a glyph comments its letter exactly when the glyph starts a new letter |
| PostScript.AsArc | day-5/ruby/lib/drawing_interface.rb:22-24 | a circle is stroked as the arc from 0 to 360 degrees (definition) |
| PostScript.ReadPaths | day-5/ruby/lib/renderers/postscript_drawing.rb:17-28 | reads primitives back from the end of a program: a newpath, move, line, stroke group is a line, and a newpath, arc, stroke group an arc (definition) |
| PostScript.ReadPathsSnoc | day-5/ruby/lib/renderers/postscript_drawing.rb:17-28 | the lines one primitive appends read back as that primitive, a circle as its full arc |
| PostScript.ReadPathsAppend | day-5/ruby/lib/renderers/postscript_drawing.rb:17-28 | the strokes of a run of primitives, appended after any lines, read back as those primitives, in order |
| PostScript.GlyphEntries | day-5/ruby/lib/renderers/postscript_drawing.rb:36-45 | a glyph appends its letter comment, if it starts a new letter, and then the strokes of its primitives (definition) |
| PostScript.GlyphReadBack | day-5/ruby/lib/renderers/postscript_drawing.rb:36-45 | the lines a glyph appends read back as exactly its primitives, circles as full arcs |
| PostScript.TextEntries | day-5/ruby/lib/text_layout.rb:20-43 | a text appends each call's glyph lines in order, each in the letter state the calls before it leave (definition) |
| PostScript.GlyphComments | day-5/ruby/lib/renderers/postscript_drawing.rb:36-45 | a glyph comments its letter exactly when it starts a new letter |
| PostScript.TextComments | day-5/ruby/lib/renderers/postscript_drawing.rb:36-45 | drawing a text comments exactly the letters that letter tracking starts |
| PostScript.DocumentShape | day-5/ruby/lib/renderers/postscript_drawing.rb:6-33 | a program starts with the five header lines and ends with `showpage` |
| PostScript.DocumentCommentsAreText | day-5/ruby/lib/renderers/postscript_drawing.rb:6-33 | the header and `showpage` carry no comments, so a program's comments are its text's |
| PostScript.DocumentComments | day-5/ruby/lib/renderers/postscript_drawing.rb:6-33 | a document starts with the five header lines and ends with `showpage`; its comments are the started letters, with no letter commented twice in a row |
| PostScript.HeaderConsistent | day-5/ruby/lib/renderers/postscript_drawing.rb:6-15 | a fresh drawing satisfies the drawing invariant |
| PostScript.ExtendKeepsConsistent | day-5/ruby/lib/renderers/postscript_drawing.rb:38-41 | lines that comment exactly the letter a glyph starts keep the drawing invariant, and the current letter becomes the next one |
| PostScript.PlainKeepsConsistent | day-5/ruby/lib/renderers/postscript_drawing.rb:17-33 | lines without a letter comment keep the drawing invariant and the current letter |
| PostScript.PrimitivesKeepConsistent | day-5/ruby/lib/renderers/postscript_drawing.rb:17-28 | strokes keep the drawing invariant and the current letter |
| PostScript.GlyphKeepsConsistent | day-5/ruby/lib/renderers/postscript_drawing.rb:36-45 | drawing a glyph keeps the drawing invariant: header first, no repeated comment, and the current letter is the last one commented |
| PostScript.PostScriptDrawing.constructor | day-5/ruby/lib/renderers/postscript_drawing.rb:6-15 | five header lines with the bounding box 0 0 612 792, the line width and the colour; no current letter |
| PostScript.PostScriptDrawing.Arc | day-5/ruby/lib/renderers/postscript_drawing.rb:17-21 | appends `newpath`, the arc, and `stroke`, and keeps the drawing invariant |
| PostScript.PostScriptDrawing.Line | day-5/ruby/lib/renderers/postscript_drawing.rb:23-28 | appends `newpath`, the move, the line, and `stroke`, and keeps the drawing invariant |
| PostScript.PostScriptDrawing.Circle | day-5/ruby/lib/drawing_interface.rb:22-24 | the inherited circle emits exactly the arc from 0 to 360 degrees, and keeps the drawing invariant |
| PostScript.PostScriptDrawing.Render | day-5/ruby/lib/renderers/postscript_drawing.rb:30-33 | appends `showpage`, returns every entry, and keeps the drawing invariant |
| PostScript.PostScriptDrawing.DrawPrimitive | day-5/ruby/lib/drawing_interface.rb:40-66 | a primitive goes to `line`, `arc` or `circle` by its kind and appends exactly its entries, keeping the drawing invariant |
| PostScript.PostScriptDrawing.DrawCommand | day-5/ruby/lib/drawing_interface.rb:40-67 | a drawable command appends its primitive's entries, a foreign one nothing; the drawing invariant is kept |
| PostScript.PostScriptDrawing.DrawCommands | day-5/ruby/lib/drawing_interface.rb:33-68 | the inherited glyph loop emits the strokes of every drawable command, in order, and keeps the drawing invariant |
| PostScript.PostScriptDrawing.CommentLetter | day-5/ruby/lib/renderers/postscript_drawing.rb:38-41 | a comment is added only for a given letter different from the current one, which then becomes current; the drawing invariant is kept |
| PostScript.PostScriptDrawing.DrawGlyph | day-5/ruby/lib/renderers/postscript_drawing.rb:36-45 | appends the glyph's entries and keeps the drawing invariant |
| PostScript.PostScriptDrawing.DrawText | day-5/ruby/lib/text_layout.rb:20-43 | performing a layout's calls appends the text's entries and keeps the drawing invariant |
| Svg.TruncToInt | day-5/ruby/lib/renderers/svg_drawing.rb:19-21 | `to_i` truncates toward zero |
| Svg.StyleFor | day-5/ruby/lib/renderers/svg_drawing.rb:19-22 | each colour channel is scaled to 0..255 and truncated; the width is the line width (definition) |
| Svg.DefaultStyle | day-5/ruby/lib/renderers/svg_drawing.rb:19-22 | the default colour becomes rgb(51,51,51), with stroke width 4 |
| Svg.Header | day-5/ruby/lib/renderers/svg_drawing.rb:12-16 | the three opening lines: XML declaration, `svg` tag with the page size, background rectangle (definition) |
| Svg.LargeArcFlag | day-5/ruby/lib/renderers/svg_drawing.rb:47 | the flag is 1 exactly when the arc spans more than 180 degrees, and 0 otherwise |
| Svg.SweepFlag | day-5/ruby/lib/renderers/svg_drawing.rb:50 | the flag is 0 exactly when start < end, and 1 otherwise |
| Svg.ArcEntry | day-5/ruby/lib/renderers/svg_drawing.rb:27-55 | an arc emits a circle element exactly when it spans at least 359.9 degrees, and a path otherwise |
| Svg.FullArcIsCircle | day-5/ruby/lib/renderers/svg_drawing.rb:29-34 | a 0..360 arc emits exactly what `circle` emits |
| Svg.ArcReversal | day-5/ruby/lib/renderers/svg_drawing.rb:47-50 | reversing a partial arc keeps the large-arc flag and flips the sweep flag |
| Svg.Elements | day-5/ruby/lib/renderers/svg_drawing.rb:57-68 | each primitive emits exactly one element, in order |
| Svg.Outline | day-5/ruby/lib/renderers/svg_drawing.rb:29-34 | an arc spanning a full turn is drawn as a circle; every other primitive as itself (definition) |
| Svg.Unflip | day-5/ruby/lib/renderers/svg_drawing.rb:31-67 | the primitive a shape element draws, with y turned back from page height minus y (definition) |
| Svg.Shapes | day-5/ruby/lib/renderers/svg_drawing.rb:27-68 | the primitives the shape elements of a document draw, in order (definition) |
| Svg.ShapesAppend | day-5/ruby/lib/renderers/svg_drawing.rb:27-68 | the shapes of two runs of lines are those of each, in order |
| Svg.NoShapesIn | day-5/ruby/lib/renderers/svg_drawing.rb:84-95 | comment and group lines draw no shapes |
| Svg.ElementsReadBack | day-5/ruby/lib/renderers/svg_drawing.rb:27-68 | the elements of a run of primitives read back, y flipped back, as those primitives' outlines: x, radii and angles kept |
| Svg.TrackAfterLetter | day-5/ruby/lib/renderers/svg_drawing.rb:84-95 | the current letter follows the shared letter tracking, and once a letter has started, the open group is the current letter's |
| Svg.Track | day-5/ruby/lib/renderers/svg_drawing.rb:84-95 | a new letter becomes current and gets its group; otherwise the state stays (definition) |
| Svg.GlyphEntries | day-5/ruby/lib/renderers/svg_drawing.rb:82-98 | a glyph appends the group lines for a new letter and then one element per primitive (definition) |
| Svg.GlyphReadBack | day-5/ruby/lib/renderers/svg_drawing.rb:82-98 | the lines a glyph appends read back as exactly its primitives' outlines |
| Svg.TextEntries | day-5/ruby/lib/text_layout.rb:20-43 | a text appends each call's glyph lines in order, each in the state the calls before it leave (definition) |
| Svg.RenderEntries | day-5/ruby/lib/renderers/svg_drawing.rb:70-79 | render appends the close of the open group, if any, then `</svg>` (definition) |
| Svg.Snoc | day-5/ruby/lib/renderers/svg_drawing.rb:70-95 | an entry changes the open-group count by its delta and adds its group letter |
| Svg.FlatAppend | day-5/ruby/lib/renderers/svg_drawing.rb:57-68 | elements that neither open nor close a group keep the depth, the nesting and the groups |
| Svg.FlatKeepsConsistent | day-5/ruby/lib/renderers/svg_drawing.rb:27-68 | shape elements keep the drawing invariant and the letter state |
| Svg.ElementsKeepConsistent | day-5/ruby/lib/renderers/svg_drawing.rb:57-68 | the elements of any run of primitives keep the drawing invariant and the letter state |
| Svg.PrimitiveEntryIsFlat | day-5/ruby/lib/renderers/svg_drawing.rb:27-68 | the element of any primitive neither opens nor closes a group |
| Svg.ElementsAreFlat | day-5/ruby/lib/renderers/svg_drawing.rb:57-68 | no element of a glyph's primitives opens or closes a group |
| Svg.HeaderConsistent | day-5/ruby/lib/renderers/svg_drawing.rb:11-24 | the header opens no group, and a fresh drawing satisfies the drawing invariant |
| Svg.LetterKeepsConsistent | day-5/ruby/lib/renderers/svg_drawing.rb:84-95 | a new letter closes the open group, if any, and opens its own; a missing or repeated letter changes nothing; the invariant holds afterwards |
| Svg.GlyphKeepsConsistent | day-5/ruby/lib/renderers/svg_drawing.rb:82-98 | drawing a glyph keeps at most one group open, opens one exactly for a new letter, and keeps the invariant |
| Svg.RenderCloses | day-5/ruby/lib/renderers/svg_drawing.rb:70-79 | rendering leaves no group open, keeps the groups, and keeps the invariant with the group state cleared |
| Svg.TextSnoc | day-5/ruby/lib/text_layout.rb:20-43 | the last call of a text appends its glyph's lines, in the state the earlier calls leave |
| Svg.TextKeepsConsistent | day-5/ruby/lib/renderers/svg_drawing.rb:82-98 | drawing a text keeps the invariant, and opens groups for exactly the letters that letter tracking starts |
| Svg.DocumentBalanced | day-5/ruby/lib/renderers/svg_drawing.rb:11-98 | a document starts with the header and ends with `</svg>`; every group is closed, at most one is open at a time, one is opened per run of equal letters, and never twice in a row for one letter |
| Svg.SvgDrawing.constructor | day-5/ruby/lib/renderers/svg_drawing.rb:6-25 | the page is 612 x 792 with a white background unless given; the header is three lines; no letter and no group |
| Svg.SvgDrawing.Arc | day-5/ruby/lib/renderers/svg_drawing.rb:27-55 | appends one element: a circle for a full turn, otherwise a path with both flags; keeps the drawing invariant |
| Svg.SvgDrawing.Line | day-5/ruby/lib/renderers/svg_drawing.rb:57-62 | appends one line element with y flipped at both ends; keeps the drawing invariant |
| Svg.SvgDrawing.Circle | day-5/ruby/lib/renderers/svg_drawing.rb:65-68 | appends one circle element with y flipped; keeps the drawing invariant |
| Svg.SvgDrawing.Render | day-5/ruby/lib/renderers/svg_drawing.rb:70-79 | closes the open group, appends `</svg>`, returns a document with every group closed, and keeps the drawing invariant |
| Svg.SvgDrawing.DrawPrimitive | day-5/ruby/lib/drawing_interface.rb:40-66 | a primitive goes to `line`, `arc` or the overriding `circle` by its kind and appends exactly its element, keeping the drawing invariant |
| Svg.SvgDrawing.DrawCommand | day-5/ruby/lib/drawing_interface.rb:40-67 | a drawable command appends its primitive's element, a foreign one nothing; the drawing invariant is kept |
| Svg.SvgDrawing.DrawCommands | day-5/ruby/lib/drawing_interface.rb:33-68 | the inherited glyph loop emits one element per drawable command, in order, and keeps the drawing invariant |
| Svg.SvgDrawing.OpenLetter | day-5/ruby/lib/renderers/svg_drawing.rb:84-95 | for a new letter, closes the open group, then comments the letter and opens its group; the drawing invariant is kept |
| Svg.SvgDrawing.DrawGlyph | day-5/ruby/lib/renderers/svg_drawing.rb:82-98 | appends the glyph's entries and keeps the drawing invariant |
| Svg.SvgDrawing.DrawText | day-5/ruby/lib/text_layout.rb:20-43 | performing a layout's calls appends the text's entries and keeps the drawing invariant |
| BackEnds.OutlinesOfTraced | day-5/ruby/lib/drawing_interface.rb:22-24 | stroking a circle as its full arc does not change its outline |
| BackEnds.SameGlyphOutlines | day-5/ruby/lib/renderers/svg_drawing.rb:27-68 | for every glyph, the SVG shapes with y flipped back are exactly the outlines of the paths PostScript strokes for it |

## Left out

**Day 4.**
- GPU work is foreign framework calls and is not modelled: the texture, sampler, bind group, pipeline, vertex buffer, render pass and `queue.write_texture`. `Render` returns whether the canvas would be uploaded and drawn.
- The aspect-ratio arithmetic in `render` is floating-point vertex maths and is not modelled.
- The GStreamer pipeline and its appsink callback are I/O. The callback is represented by calls to `SetCurrent`.
- `Mutex` and `Arc` are not modelled: the slot is one sequential object, and handles are references to it.
- The internals of `StdRng` are not modelled. Its output is an arbitrary stream of naturals. `gen_range(6..=128)` is `6 + raw % 123`, which reaches every value of the range.
- `Instant::now()` becomes a parameter in nanoseconds.
- Machine-word overflow of `usize` is not modelled. On a 1280 x 1024 canvas no index comes near it.
- Mosaic.AlignDown: states `v - v % 32` and does not prove it equal to the bit mask `& !0x1F` on 64-bit words.
- The shaders, the sketches of days 1 to 3, and the `main` wiring are outside this model.

**Day 5.**
- Text and numbers are not modelled.
  - The output is structured entries, not strings.
  - Ruby's `Float#to_s` / `Integer#to_s` formatting and the final `join("\n")` are not modelled.
  - Integer and float parameters are both `real`.
- Svg.SvgDrawing.Arc: the path's start and end points are not modelled, because they need `cos` and `sin`. The model keeps the centre, the radius, both angles and both flags.
- The glyph registry is a module-level hash in the program. Here it is a `GlyphRegistry` object passed to `Draw`.
- A definition block is the sequence of builder calls it makes.
- Glyphs are immutable values, so the defensive `dup` of command parameters has nothing to protect.
- `downcase` is modelled for ASCII letters only.
- The glyph tables are used only for the letter r (`LetterRGlyph`). The builder calls of the other letters are static data.
- The `or 100` fallback in `TextLayout#draw` is dead code. `width_restriction` is always set, because the builder defaults it to 100.
- The G-code renderer required by `generate_postscript.rb` is not part of this model. Neither is the file writing in that script.
- A drawing's `@options` merge keeps only the four keys the back ends read. The keys `width`, `height` and `background_color` are read from the caller's options, as the SVG constructor does.
- In Ruby, an option key given with value `nil` overrides its default with `nil`. Here a missing key and a `nil` key are the same case.
