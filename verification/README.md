# inksnek glyph compilers, modelled in Dafny

inksnek is a helper library for Inkscape extensions that generate laser-cutting
designs. This project models the parts of it that turn text and numbers into
drawing commands:

- **The annotation font** (`annotation_path`). Text is stroked with a built-in
  single-line font. Each glyph is a 32-bit word of eight 4-bit move/draw commands
  on a 3x3 vertex grid. Control characters change the pen instead of drawing:
  newline, raise, lower, narrower, wider, shorter, taller, backspace, underline
  and italic. The first pass measures the text, for alignment. Modules
  `Annotation`, `AnnotationTable` (the 102-entry code table), `AnnotationProps`
  and `Nibbles` (the shift-and-mask arithmetic).
- **`add_shape`** and the node-list wire format (`[[x, y]]` move, `[x, y]` line,
  `[]` close). Modules `Shapes` and `PathCmd`.
- **`normalise_angle`**. Module `Angles`.
- **The N-segment font** (`NSegmentFont`: 16-, 14- and 7-segment layouts, gap,
  thickness, skew). Modules `NSegment`, `NSegmentTable` and `NSegmentProps`.
- **The plotter font** (`PlotterFont.get_char_shape`, from the Commodore 1520
  ROM strokes). Modules `Plotter` and `PlotterTable`.
- **The text helpers of the round-dial sample.** `get_multi_line_str_info`, the
  pen of `add_text` and the pen of `add_seg_text`. Module `TextLayout`.
- **The Excellon drill-file scanner** (`parse_file_lines`). Modules `Drill`, and
  `Numerals` for Python's `int()`/`float()`/`str()`.

`Lines` is the reference definition of splitting text into lines. The one-pass
line measures of the annotation font and of `round.py` are proved against it.
`Wrappers` holds `Option` and `Result`.

Coordinates are exact reals: no floating-point rounding. Paths are lists of
abstract commands (`MoveTo`, `LineTo`, `LineBy`, `HorzBy`, `VertBy`, `Close`) in
the caller's user units.

Both defects listed under "## Findings" are modelled in two readings, selected
by `Annotation.Dialect`:

- `AsWritten` is the program.
- `Corrected` is what the comments and the table layout evidently intend.

The comments at inksnek.py:401 and inksnek.py:495 say that trailing zero
commands are ignored. The loop's exit tests the shifted word, which is never
masked back to 32 bits, so it stops early only for code 0. Every other glyph
reads its trailing zeros as moves: to vertex 0, then to the centre. Moves draw
nothing, so only the x register sees them, and the corrected newline does not
read that register. Both readings keep the loop as written
(`AnnotationProps.PassRunsOn`, `AnnotationProps.ZeroEndedCentre`).

## Model

| member | source | states |
|---|---|---|
| Annotation.ControlOf | inksnek.py:336-371 | A character is a pen control exactly when it is '\n', 0x08, 0x0E, 0x0F, 0x10, 0x11, 0x1B, 0x1E, 0x1F or in 0xF0 .. 0xFF, and no control character has a glyph. 0xFn sets italic level n. A character is a newline control exactly when it is '\n'. |
| AnnotationProps.ControlRoundTrip | inksnek.py:362-371 | Each control has exactly one character, and that character is recognised as that control and no other. |
| Annotation.Index | inksnek.py:372 | A character in ' ' .. 0x85 selects its own table row. Every other character selects the row of '?'. |
| Annotation.Measure | inksnek.py:339-346 | The first pass returns the number of '\n'-separated lines, and the widest line counted in characters that have a glyph row, both measured against an independent split into lines. |
| Annotation.Align | inksnek.py:347-356 | Centring puts the anchor halfway across the ink of the widest line. Right alignment puts the anchor at its right edge. Top alignment puts the anchor on the glyph tops. Middle alignment puts it midway between the first line's top and the last line's baseline. Centre takes precedence over right, and top over middle. |
| Annotation.AnnotationPath | inksnek.py:338 | The result is None exactly when the text is empty. |
| Annotation.Square | inksnek.py:386-388 | The box for a zero-length stroke names no absolute point, and its horizontal and vertical steps each sum to zero. It closes where it began, wherever the pen stands. |
| Annotation.TurnTranslate | inksnek.py:385-403 | One pass of the command loop, on a moved grid, emits the same commands with every absolute point moved. Boxes, relative moves and the loop's stop are unchanged. |
| Annotation.WalkTranslate | inksnek.py:385-403 | The whole command loop commutes with translation. This includes the x register it leaves behind. |
| Annotation.SetupMoved | inksnek.py:373-384 | A glyph's modifier (half height, lowered, centre dot) does not depend on where the pen is: moving the pen moves the vertex grid and the dot. |
| Annotation.RenderTranslate | inksnek.py:382-403 | The dot and command loop of a glyph commute with translation. |
| Annotation.GlyphTranslate | inksnek.py:373-403 | A glyph drawn at a moved pen is the same glyph translated. |
| Annotation.UnderlineTranslate | inksnek.py:404 | The underline moves with the pen. |
| Annotation.PrintTranslate | inksnek.py:372-405 | A printed character at a moved pen is translated, and so is the pen it leaves. |
| Annotation.StepTranslate | inksnek.py:361-405 | Controls and printed characters alike commute with translation. |
| Annotation.RunTranslate | inksnek.py:361-405 | Laying out any text from a moved pen translates every command and the final pen. |
| Annotation.StartMoved | inksnek.py:347-358 | The aligned starting pen moves with the anchor. |
| Annotation.PathTranslate | inksnek.py:333-406 | Annotating at a moved anchor gives the same path translated, in both readings. |
| AnnotationProps.RunAppend | inksnek.py:361-405 | Laying out a + b is laying out a, then b from the pen a leaves. The commands concatenate. |
| AnnotationProps.ControlInverses | inksnek.py:363-370 | Lower/higher, narrower/wider and shorter/taller cancel. Two underline toggles cancel. A control emits no commands. |
| AnnotationProps.StepPen | inksnek.py:361-405 | A printed character advances the origin by one pitch (3 x-units) and keeps height, scales, slant and underline. A control other than newline and backspace keeps the origin's x. |
| AnnotationProps.SpaceCode | inksnek.py:500 | The space character's code is 0 in both readings. |
| AnnotationProps.SpaceGlyph | inksnek.py:389-401 | Code 0 emits nothing, and its single pass sets the x register to the character's origin. |
| AnnotationProps.NewlineDrifts | inksnek.py:357-402 | As written, after two spaces a newline starts the next line one pitch to the right of the first. Corrected, it returns to where the text began. |
| AnnotationProps.CorrectedKeepsRegister | inksnek.py:357 | In the corrected reading, the x register keeps the line start through any text. |
| AnnotationProps.CorrectedNewline | inksnek.py:362 | In the corrected reading, after any text a newline returns the origin to the start x and drops it 3 y-units. |
| AnnotationProps.TurnLines | inksnek.py:395-402 | A pass emits one line exactly when its nibble has the draw bit. |
| AnnotationProps.WalkLines | inksnek.py:385-403 | From pass k on, the loop emits one line per draw nibble among the remaining digits of the code. |
| AnnotationProps.GlyphLines | inksnek.py:373-403 | A glyph emits exactly as many lines as its code has draw nibbles, once the modifier is cleared. |
| AnnotationProps.TailMoves | inksnek.py:389-402 | Once the 32-bit word is shifted out, the remaining passes emit moves only. |
| AnnotationProps.PassRunsOn | inksnek.py:389-401 | The shifted word is never masked back to 32 bits, so the early exit after a move fires only when the code is 0. Every other glyph runs all eight passes. |
| AnnotationProps.TrailingZerosReachCentre | inksnek.py:385-402 | From any pass k up to 7, a non-zero code whose nibbles for passes 6 and 7 are zero ends with a move to the centre. It leaves the x register at the centre's x. |
| AnnotationProps.TrailingZerosEndAtCentre | inksnek.py:373-402 | A glyph whose cleared code is non-zero and ends in two zero digits: its last command is a move to the centre of its grid, and the register it leaves holds the centre's x. |
| AnnotationProps.ZeroEndedCentre | inksnek.py:373-402 | A non-zero code ending in two zero digits leaves the register at x origin + x scale + y scale * italic: the centre of the plain grid. |
| AnnotationProps.UpperACentre | inksnek.py:504 | 'A' (0x2FD83C00), in either reading of the table, leaves the register at the centre of the plain grid. |
| AnnotationProps.WalkShear | inksnek.py:385-403 | Shearing the vertex grid shears every point the command loop emits. |
| AnnotationProps.GlyphItalic | inksnek.py:382-400 | An italic glyph is the upright glyph sheared about the baseline by its slant. |
| AnnotationProps.ClearedPlain | inksnek.py:373-384 | Once the modifier nibble is cleared, a glyph is laid out on the plain grid: full height, no drop. |
| AnnotationProps.HalfHeight | inksnek.py:374-394 | Modifier 1 squashes every vertex and the centre to half height above the baseline. The side of the box and the lead are unchanged. |
| AnnotationProps.DropLayout | inksnek.py:377-394 | Modifiers 2 and 3 move the whole grid down by the drop, and sideways by the drop along the slant. |
| AnnotationProps.DropGlyph | inksnek.py:374-403 | A dropped glyph is its dot followed by the plain glyph's commands moved by the drop. |
| AnnotationProps.DotOpens | inksnek.py:381-388 | With the dot bit, a glyph opens with a move to the dot and the four sides of the box. |
| AnnotationProps.OwesBox | inksnek.py:398 | A pass owes a box exactly when it draws to the vertex of the previous nibble. A draw never stops the loop. |
| AnnotationProps.RepeatDrawsBox | inksnek.py:386-398 | A line back to the previous vertex is followed by the four sides of a box on the next pass. |
| AnnotationProps.LastBoxLost | inksnek.py:385-398 | The eighth pass has no next pass, so a box it owes is never drawn. |
| AnnotationProps.UnderscoreGlyph | inksnek.py:506 | Code 0xA0000000 draws exactly one segment, along the baseline from grid (0, 0) to (2, 0). |
| AnnotationProps.CaretGlyph | inksnek.py:506 | Code 0x3EC00000 draws exactly two segments: (0, 1) to (1, 2) to (2, 1), a caret. |
| AnnotationProps.CaretRows | inksnek.py:506 | As written, '^' reads code 0xA0000000 and '_' reads 0x3EC00000. Corrected, the two rows are exchanged. |
| AnnotationProps.CaretAsWritten | inksnek.py:506 | As written, '^' draws an underscore. |
| AnnotationProps.CaretCorrected | inksnek.py:506 | Corrected, '^' draws a caret and '_' draws an underscore. |
| Nibbles.NibbleIsDigit | inksnek.py:389-390 | After k four-bit shifts, `(strokes & 0xF0000000) >> 28` is hex digit k of the original 32-bit code. |
| Angles.TurnDown | inksnek.py:434-435 | The first loop ends at or below 360. It leaves an angle already at or below 360 alone, and otherwise stays positive. |
| Angles.TurnUp | inksnek.py:436-437 | The second loop ends at or above 0. It leaves a non-negative angle alone, and otherwise stays below 360. |
| Angles.Normalise | inksnek.py:433-438 | The result lies in [0, 360], and an angle already there is returned unchanged. 360 stays 360. |
| Angles.NormaliseIdempotent | inksnek.py:433-438 | Normalising twice is normalising once. |
| Angles.NormaliseWholeTurns | inksnek.py:433-438 | The result differs from the input by a whole number of turns. |
| Shapes.EncodeOne | inksnek.py:318-325 | A node's list form (two numbers, one pair, or empty) becomes exactly the line, move or close it stands for, placed at (x + nx sx, y + ny sy). |
| Shapes.AddShapeOfEncoded | inksnek.py:314-326 | `add_shape` of any node list the fonts produce is the list of placed commands, node for node. |
| NSegment.Sign | extras/n_segment_font.py:84-85 | `d / abs(d)` is 1 for a positive delta and -1 for a negative one. A zero delta is left at 0, and only a zero delta gives 0. |
| NSegment.LineAll | extras/n_segment_font.py:129-131 | Steps append one line each, except zero steps. Earlier nodes are kept and the draw count grows by the moving steps. |
| NSegment.Lookup | extras/n_segment_font.py:57-60 | The first table entry for a character is found, and None means that no entry has it. |
| NSegmentProps.DefShape | extras/n_segment_font.py:79-123 | A segment is a move to its skewed start, one line per moving step, and a close exactly when it drew. |
| NSegmentProps.SegmentShape | extras/n_segment_font.py:69-77 | A segment number past the layout gives nothing. Any other segment is one well-formed outline. |
| NSegmentProps.NamedWellFormed | extras/n_segment_font.py:62-67 | The named segments form a well-formed node list: a leading move, and a close only after a line. |
| NSegmentProps.NamedMoves | extras/n_segment_font.py:62-67 | A glyph holds one outline (one move) per lit segment of the layout. |
| NSegmentProps.SelectionOnly | extras/n_segment_font.py:65 | Two name strings that light the same segments give the same glyph. |
| NSegmentProps.SameLetters | extras/n_segment_font.py:65 | Order and repetition of segment letters do not matter. |
| NSegmentProps.StarIsEveryLetter | extras/n_segment_font.py:65 | "*" gives the same glyph as naming every segment of the layout. |
| NSegmentProps.CharFromTable | extras/n_segment_font.py:57-59 | A character above 0x0F is drawn from the first table entry for it. |
| NSegment.CharSegments | extras/n_segment_font.py:45-60 | An unknown layout gives nothing. A character up to 0x0F raises TypeError exactly when there is no custom list, and IndexError exactly when the list is too short. ZeroDivisionError only comes from a font of zero height or from a singular diagonal. |
| NSegmentProps.NamedRaises | extras/n_segment_font.py:62-143 | Named segments raise exactly when some segment is lit and either the font has no height (the division in `_add`) or a lit diagonal's correction divides by a zero sine. Nothing lit gives the empty glyph. |
| NSegmentProps.ShortDiagonalRaises | extras/n_segment_font.py:83-114 | A diagonal shorter than its gaps raises: on a 16-segment font 6 wide and 2 high with gap 1 and no thickness, segment D has len_x = 1 and len_y = -1, so its correction divides by sin(0), even though the thickness is 0. |
| NSegmentProps.CharWellFormed | extras/n_segment_font.py:45-67 | A glyph that does not raise is well formed, with one outline per lit segment. |
| NSegmentProps.CharMissing | extras/n_segment_font.py:56-60 | A character above 0x0F that the table lacks draws nothing, on any font. |
| NSegmentProps.EightLightsAll | extras/n_segment_font.py:320 | On the 7-segment layout, '8' lights every segment. |
| NSegmentProps.DefsSpan | extras/n_segment_font.py:147-200 | Every segment definition of every layout spans a non-zero distance. |
| NSegmentProps.ThickSegmentLines | extras/n_segment_font.py:87-122 | With thickness, a segment of non-zero length is a closed outline of five sides, or four for a square-capped vertical. A diagonal also needs a non-zero corrected thickness and a length that differs from it. |
| NSegmentProps.ThinSteps | extras/n_segment_font.py:87-121 | With no thickness, each of the three branches steps out along the segment's extent and straight back, with zero steps around. |
| NSegmentProps.ThinSegment | extras/n_segment_font.py:79-123 | With no thickness, a segment that does not raise is a move to its start, a line across its extent, a line back, and a close. |
| NSegmentProps.OutlineIgnoresSkew | extras/n_segment_font.py:79-121 | The outline's geometry does not depend on the skew. |
| NSegmentProps.DefSkew | extras/n_segment_font.py:137-144 | A skewed segment is the unskewed one with every node shifted right by skew times its height above the origin over the height. |
| NSegmentProps.NamedSkew | extras/n_segment_font.py:62-67 | A skewed glyph is the unskewed glyph sheared, node for node. |
| NSegmentProps.CharSkew | extras/n_segment_font.py:45-60 | For any character, skew does not decide whether it raises. A glyph that does not raise is the unskewed glyph sheared, and on a font of zero height it is empty. |
| Plotter.Decode | extras/plotter_font.py:40-48 | One node per command, in order. A command is a move when its move bit is set or it is the first. Its point is (x + slant y, y). |
| Plotter.CharShape | extras/plotter_font.py:35-49 | A shape is non-empty exactly for characters ' ' .. 0x89. It then has one node per command of the character's row, node i being command i's point, a move when it is the first command or tagged as a move. Every shape starts with a move and has no close. |
| Plotter.ShapeIffInTable | extras/plotter_font.py:37-38 | A shape is non-empty exactly for characters ' ' .. 0x89, with one node per command of the row. |
| Plotter.ShapeWellFormed | extras/plotter_font.py:45-46 | Every shape starts with a move, even when its first command is a line, and has no close. |
| Plotter.LastTagIgnored | extras/plotter_font.py:41-45 | The "last command" bit never changes the decoded shape. |
| Plotter.UnslantedOnGrid | extras/plotter_font.py:42-44 | Without slant, every node lies on the 8x8 integer grid. |
| Plotter.SingleOriginDecode | extras/plotter_font.py:45-46 | A single command whose x and y fields are zero decodes to one move to the origin, whatever the slant. |
| Plotter.SpaceAndDelAreBlank | extras/plotter_font.py:53-247 | Space and DEL each decode to a single invisible move to the origin. |
| TextLayout.MultiLineStrInfo | samples/round.py:154-170 | The line count is the newline count plus one, and the longest line is measured against the independent split. It never exceeds the text length, and "" gives one line of length 0. |
| TextLayout.LongestBound | samples/round.py:154-170 | No line is longer than the whole text. |
| TextLayout.TextPenX | samples/round.py:24-38 | After any text, the pen's x is the margin plus the scaled advances of the last line: 5 per drawn character, n per code n below 7. |
| TextLayout.TextPenY | samples/round.py:32-34 | After any text, the pen's y has dropped one line pitch (8 units, scaled) per newline. |
| TextLayout.TextPenCount | samples/round.py:35-38 | `add_text` places one glyph per character that is neither a newline nor a code below 7. |
| TextLayout.TextPrefix | samples/round.py:28-38 | The glyphs placed for a prefix of the text come first and are unchanged by what follows. |
| TextLayout.TextGlyph | samples/round.py:35-38 | Each drawn character's glyph is placed where the pen stands after the characters before it. |
| TextLayout.PlotterShapes | samples/round.py:36-37 | Every glyph `add_text` hands to `add_shape` is well formed. It is non-empty exactly for characters the plotter table covers. |
| TextLayout.SegGlyphsAt | samples/round.py:187-190 | Glyph i of `add_seg_text` is character i, placed i pitches right of the first. |
| TextLayout.SegRow | samples/round.py:185-190 | The glyphs stand one pitch apart on one baseline, and the row is centred on the anchor. |
| TextLayout.AddSegText | samples/round.py:183-190 | The pitch is scale times (width + 3 gap + 2 thick). The baseline sits half the scaled height below y, and the row is centred on x. |
| TextLayout.SegShapes | samples/round.py:187-189 | The row draws exactly when no character raises, and then every glyph is its font glyph and well formed. Otherwise the error is that of the first character that raises. |
| Numerals.ParseShow | extras/read_gerber_holes.py:45 | `int(str(i)) == i` for every integer. |
| Numerals.ParsePad | extras/read_gerber_holes.py:54-55 | `int()` reads a zero-padded field back as its value. |
| Numerals.ParseFraction | extras/read_gerber_holes.py:47 | `float()` of digits, a point, digits and the line's newline is the decimal value. |
| Numerals.DecimalOf | extras/read_gerber_holes.py:47 | A whole part and a k-digit zero-padded fraction read back as a + b / 10^k. |
| Drill.Find | extras/read_gerber_holes.py:46 | `find` returns -1 exactly when the character is absent. Otherwise it returns its first position. |
| Drill.Slice | extras/read_gerber_holes.py:45-55 | Python's `line[a:b]`: the ordinary sub-sequence when in range, the rest of the line when only b is past its end, and empty when a is. |
| Drill.Step | extras/read_gerber_holes.py:42-56 | The holes only grow, by at most one, and exactly when the line starts with 'X' and the current tool is not -1. A new hole's diameter is the current tool's. A definition changes only its own tool's diameter. Any other line selects the tool read. Only a 'T' line changes the tool. An empty line raises IndexError, and UnboundLocalError needs an 'X' line before any tool is selected. |
| Drill.RunPrefix | extras/read_gerber_holes.py:42-57 | A scan that gets through all lines gets through every prefix, with a prefix of the holes. |
| Drill.FirstError | extras/read_gerber_holes.py:42-57 | An error names the first line that raises: every earlier line went through, and that line raises the reported fault. |
| Drill.HolesCounted | extras/read_gerber_holes.py:53-56 | At most one hole per line. |
| Drill.RunAppend | extras/read_gerber_holes.py:42-57 | Scanning two runs of lines in turn is scanning them joined. |
| Drill.DefineStep | extras/read_gerber_holes.py:44-48 | A `TnnCd.ddd` line records the tool's diameter and selects nothing. |
| Drill.SelectStep | extras/read_gerber_holes.py:44-50 | A `Tnn` line makes its tool the current one. |
| Drill.SpotStep | extras/read_gerber_holes.py:53-56 | An `XxxxxxxYyyyyyy` line adds one hole at the coordinates in mm, with the current tool's diameter. |
| Drill.DefinesRun | extras/read_gerber_holes.py:42-48 | A block of definitions fills the diameter table, later definitions winning. It drills nothing. |
| Drill.SpotsRun | extras/read_gerber_holes.py:53-56 | A block of hole lines drills one hole each, in order, with the selected tool. |
| Drill.SectionRun | extras/read_gerber_holes.py:42-56 | A section selects its tool and drills its holes with that tool's diameter. |
| Drill.BodyRun | extras/read_gerber_holes.py:42-56 | The sections drill their holes in order, each with its own tool's diameter. |
| Drill.DrillRoundTrip | extras/read_gerber_holes.py:36-57 | A drill file written from tool definitions and sections parses back to exactly the holes they describe. |

## Left out

- Output formatting: the `"%.3f"` coordinate strings, SVG path syntax, and the
  document-unit conversion `inkex` applies. Paths are abstract command lists.
- `add_path`, `add_annotation`, `path_start` and the rest of the `inkex`
  plumbing. They only wrap the modelled commands into SVG elements.
- Angles.Normalise: reals have no infinity or nan. On floats the loops never
  end for plus or minus infinity, nor once |degrees| reaches about 2^62, where
  `degrees - 360` rounds back to `degrees`. A nan fails both tests and comes
  back unchanged, outside [0, 360]. The model promises the range only for
  finite values, with exact arithmetic.
- Floating-point rounding. All arithmetic is on exact reals, and `float()` is the
  exact decimal value.
- NSegment.DiagThick: the diagonal correction `sqrt(2)/sin(pi/4 + atan2(len_y, len_x))`
  is a parameter (`Correction`), because trigonometry has no exact model. It
  returns None where the sine is zero, and the model then raises
  ZeroDivisionError. Which (len_y, len_x) give a zero sine is left to the
  parameter: with floats it happens at least when len_y == -len_x and
  len_x > 0, because `atan2(-a, a)` is exactly `-pi/4`. The thin-segment and
  skew lemmas hold for every correction.
- The unused `_7segment_font_original` table. No code path reads it.
- The `group` and `style` arguments of the drawing helpers are not modelled.
- `add8x8_text` and the 8x8 outline font are not part of this model.
- `read_zip_file`, `read_drill_file` and the file/zip I/O around
  `parse_file_lines` are left out: the model takes the lines.
- Numerals.ParseInt: `int()` is modelled for ASCII whitespace, an optional sign
  and ASCII digits. Underscores between digits and non-ASCII digits and spaces,
  which Python also accepts, are left out.
- Numerals.ParseFloat: `float()` is modelled for an optional sign and digits
  with at most one point. Exponents, `inf`, `nan` and underscores are left out.

## Findings

| source | as written | input that shows it | evidently intended | confidence | as-written member | corrected member |
|---|---|---|---|---|---|---|
| inksnek.py:362 | A newline sets `x_origin = x`. The `x` register was set to the line start at line 357, but every glyph overwrites it with the last vertex it computed (lines 394 and 400). | `"  \n"` with left alignment: the second line starts one pitch right of the first. | A newline returns to the x where the text started. | not executed | AnnotationProps.NewlineDrifts | AnnotationProps.CorrectedNewline |
| inksnek.py:506 | Row 62 (character `^`) holds `0xA0000000`, a baseline stroke, and row 63 (`_`) holds `0x3EC00000`, a caret. The comment names them in the order `_^`, but `^` (0x5E) comes before `_` (0x5F). | `"^"` draws an underscore and `"_"` draws a caret. | `^` draws the caret and `_` the underscore. | not executed | AnnotationProps.CaretAsWritten | AnnotationProps.CaretCorrected |
