/** Properties of the annotation font: how a text run composes, what the
    controls undo, how many strokes a glyph draws, italic as a shear, and the
    two defects of the program together with their corrections. */
module AnnotationProps {
  import opened Wrappers
  import opened PathCmd
  import opened Nibbles
  import opened AnnotationTable
  import opened Annotation

  // Composition of a run

  /** Running two texts one after the other is running their concatenation. */
  lemma RunAppend(d: Dialect, p: Pen, a: string, b: string)
    ensures Run(d, p, a + b).pen == Run(d, Run(d, p, a).pen, b).pen
    ensures Run(d, p, a + b).cmds == Run(d, p, a).cmds + Run(d, Run(d, p, a).pen, b).cmds
  {
    RunAppendPen(d, p, a, b);
    RunAppendCmds(d, p, a, b);
  }

  lemma {:induction false} RunAppendPen(d: Dialect, p: Pen, a: string, b: string)
    ensures Run(d, p, a + b).pen == Run(d, Run(d, p, a).pen, b).pen
    decreases |a|
  {
    if a == [] {
      assert a + b == b;
    } else {
      var s := Step(d, p, a[0]);
      assert (a + b)[0] == a[0];
      assert (a + b)[1..] == a[1..] + b;
      RunAppendPen(d, s.pen, a[1..], b);
    }
  }

  lemma {:induction false} RunAppendCmds(d: Dialect, p: Pen, a: string, b: string)
    ensures Run(d, p, a + b).cmds == Run(d, p, a).cmds + Run(d, Run(d, p, a).pen, b).cmds
    decreases |a|
  {
    if a == [] {
      assert a + b == b;
    } else {
      var s := Step(d, p, a[0]);
      assert (a + b)[0] == a[0];
      assert (a + b)[1..] == a[1..] + b;
      RunAppendCmds(d, s.pen, a[1..], b);
    }
  }

  // Controls

  /** The character each control is written as: the inverse of `ControlOf`. */
  function ControlChar(k: Control): char
    requires k.Italic? ==> k.level <= 15
  {
    match k
    case Newline => '\n'
    case Lower => '\U{11}'
    case Higher => '\U{10}'
    case Narrower => '\U{0F}'
    case Wider => '\U{0E}'
    case Shorter => '\U{1F}'
    case Taller => '\U{1E}'
    case Backspace => '\U{08}'
    case UnderlineToggle => '\U{1B}'
    case Italic(n) => (0xF0 + n) as char
  }

  /** A character is a control exactly when it is the character written for
      one, and then it is that control. */
  lemma ControlRoundTrip(c: char, k: Control)
    requires k.Italic? ==> k.level <= 15
    ensures ControlOf(c) == Some(k) <==> c == ControlChar(k)
  {
  }

  /** Each pair of opposite controls cancels, and a control draws nothing. */
  lemma ControlInverses(d: Dialect, p: Pen, c: char)
    ensures ApplyControl(ApplyControl(p, Lower), Higher) == p
    ensures ApplyControl(ApplyControl(p, Narrower), Wider) == p
    ensures ApplyControl(ApplyControl(p, Shorter), Taller) == p
    ensures ApplyControl(ApplyControl(p, UnderlineToggle), UnderlineToggle) == p
    ensures ControlOf(c).Some? ==> Step(d, p, c).cmds == []
  {
  }

  /** A printed character moves the origin one pitch to the right and leaves
      everything else but the `x` register as it was; a control other than a
      newline or backspace leaves the origin's x alone. */
  lemma StepPen(d: Dialect, p: Pen, c: char)
    ensures ControlOf(c).None? ==>
      var q := Step(d, p, c).pen;
      q.xOrigin == p.xOrigin + 3.0 * p.xScale && q.yOrigin == p.yOrigin
      && q.xScale == p.xScale && q.yScale == p.yScale
      && q.italic == p.italic && q.underline == p.underline
    ensures ControlOf(c).Some? && ControlOf(c) != Some(Newline) && ControlOf(c) != Some(Backspace) ==>
      Step(d, p, c).pen.xOrigin == p.xOrigin
  {
  }

  // The newline start position

  /** In the corrected reading the `x` register keeps the line start. */
  lemma {:induction false} CorrectedKeepsRegister(p: Pen, text: string)
    ensures Run(Corrected, p, text).pen.x == p.x
    decreases |text|
  {
    if text != [] {
      CorrectedStepKeepsRegister(p, text[0]);
      CorrectedKeepsRegister(Step(Corrected, p, text[0]).pen, text[1..]);
    }
  }

  /** One character of the corrected reading leaves the register alone. */
  lemma CorrectedStepKeepsRegister(p: Pen, c: char)
    ensures Step(Corrected, p, c).pen.x == p.x
  {
  }

  /** So after any text, a newline returns the origin to where the text began. */
  lemma CorrectedNewline(p: Pen, text: string)
    ensures Run(Corrected, p, text + "\n").pen.xOrigin == p.x
    ensures Run(Corrected, p, text + "\n").pen.yOrigin == Run(Corrected, p, text).pen.yOrigin - 3.0 * Run(Corrected, p, text).pen.yScale
  {
    RunAppend(Corrected, p, text, "\n");
    CorrectedKeepsRegister(p, text);
  }

  /** The space glyph is the all-zero code: it emits nothing, and its only pass
      leaves the register at vertex 0, the glyph's own origin. */
  lemma SpaceGlyph(p: Pen)
    ensures DrawGlyph(p, 0).cmds == []
    ensures DrawGlyph(p, 0).x == p.xOrigin
  {
    var s := GlyphSetup(p, 0);
    assert s.strokes == 0 && !s.box && s.dot == [];
    assert s.layout.vertex[0].x == p.xOrigin;
    assert Top(0) == 0;
  }

  lemma SpaceCode(d: Dialect)
    ensures Code(d, ' ') == 0
  {
    assert Strokes[0] == 0;
  }

  /** As written, the register follows the last glyph, so a newline after two
      spaces starts the next line one pitch right of the first. */
  lemma NewlineDrifts(p: Pen)
    requires p.x == p.xOrigin
    ensures Run(AsWritten, p, "  \n").pen.xOrigin == p.xOrigin + 3.0 * p.xScale
    ensures Run(Corrected, p, "  \n").pen.xOrigin == p.xOrigin
  {
    var p1 := p.(xOrigin := p.xOrigin + 3.0 * p.xScale, x := p.xOrigin);
    var p2 := p1.(xOrigin := p1.xOrigin + 3.0 * p1.xScale, x := p1.xOrigin);
    SpaceStep(p);
    SpaceStep(p1);
    TwoSpaces(AsWritten, p, p1, p2);
    CorrectedNewline(p, "  ");
    assert "  " + "\n" == "  \n";
  }

  /** Two spaces and a newline: the newline returns to the register the two
      spaces left behind. */
  lemma TwoSpaces(d: Dialect, p: Pen, p1: Pen, p2: Pen)
    requires p1 == Step(d, p, ' ').pen && p2 == Step(d, p1, ' ').pen
    ensures Run(d, p, "  \n").pen.xOrigin == p2.x
  {
    RunStep(d, p, "  \n");
    assert "  \n"[1..] == " \n";
    RunStep(d, p1, " \n");
    assert " \n"[1..] == "\n";
    RunStep(d, p2, "\n");
  }

  /** As written, a space moves the origin one pitch and leaves the register
      at the space's own origin. */
  lemma SpaceStep(p: Pen)
    ensures Step(AsWritten, p, ' ').pen == p.(xOrigin := p.xOrigin + 3.0 * p.xScale, x := p.xOrigin)
  {
    SpaceCode(AsWritten);
    SpaceGlyph(p);
    PrintOf(AsWritten, p, 0, DrawGlyph(p, 0));
  }

  /** A non-empty text is its first step, then the rest. */
  lemma RunStep(d: Dialect, p: Pen, text: string)
    requires text != []
    ensures Run(d, p, text).pen == Run(d, Step(d, p, text[0]).pen, text[1..]).pen
  {
  }

  // Strokes drawn

  lemma SquareHasNoLines(side: real)
    ensures LineCount(Square(side)) == 0
  {
    var sq := Square(side);
    assert sq[1..][1..][1..][1..] == [];
    assert LineCount(sq[1..][1..][1..]) == 0;
    assert LineCount(sq[1..][1..]) == 0;
    assert LineCount(sq[1..]) == 0;
  }

  /** One pass draws a line exactly when its nibble is a draw command. */
  lemma TurnLines(l: Layout, k: nat, nibble: nat, last: bool, box: bool, prev: Option<nat>)
    requires |l.vertex| == 8
    ensures LineCount(Turn(l, k, nibble, last, box, prev).cmds) == if nibble >= 8 then 1 else 0
  {
    var sq := if box then Square(l.side) else [];
    SquareHasNoLines(l.side);
    var v := l.vertex[nibble % 8];
    if nibble >= 8 {
      var lead := if k == 0 then [MoveTo(l.lead.x, l.lead.y)] else [];
      CountAppend(sq + lead, [LineTo(v.x, v.y)]);
      CountAppend(sq, lead);
    } else if !last {
      var pt := if prev == Some(0) && nibble == 0 then l.centre else v;
      CountAppend(sq, [MoveTo(pt.x, pt.y)]);
    }
  }

  /** From pass `k` on, the loop draws one line per draw nibble left in the
      word: the shifted value is `code * 16^k`, its top nibble is digit `k`, and
      the loop only stops early once nothing is left. */
  lemma {:induction false} WalkLines(l: Layout, k: nat, code: Word, box: bool, prev: Option<nat>, x: real)
    requires |l.vertex| == 8 && k <= 8
    ensures LineCount(Walk(l, k, code * Pow16(k), box, prev, x).cmds) == DrawDigits(code, k)
    decreases 8 - k
  {
    if k < 8 {
      var strokes := code * Pow16(k);
      var s := Turn(l, k, Top(strokes), strokes * 16 == 0, box, prev);
      ShiftPow(code, k);
      if s.stop {
        LinesStop(l, k, code, strokes, box, prev, x);
      } else {
        WalkLines(l, k + 1, code, s.box, Some(Top(strokes)), s.x);
        LinesPass(l, k, code, strokes, box, prev, x, s, Walk(l, k + 1, strokes * 16, s.box, Some(Top(strokes)), s.x));
      }
    }
  }

  lemma ShiftPow(code: nat, k: nat)
    ensures code * Pow16(k) * 16 == code * Pow16(k + 1)
  {
    assert Pow16(k + 1) == 16 * Pow16(k);
  }

  /** A pass that ends the loop leaves nothing to draw. */
  lemma LinesStop(l: Layout, k: nat, code: Word, strokes: nat, box: bool, prev: Option<nat>, x: real)
    requires |l.vertex| == 8 && k < 8
    requires strokes == code * Pow16(k) && strokes * 16 == code * Pow16(k + 1)
    requires Turn(l, k, Top(strokes), strokes * 16 == 0, box, prev).stop
    ensures LineCount(Walk(l, k, strokes, box, prev, x).cmds) == DrawDigits(code, k)
  {
    TurnLines(l, k, Top(strokes), strokes * 16 == 0, box, prev);
    assert code == 0 by {
      if code != 0 {
        AtLeastOnce(code, Pow16(k + 1));
      }
    }
    ZeroHasNoDraws(k);
  }

  /** A pass that draws its digit's line, then the rest of the loop. */
  lemma LinesPass(l: Layout, k: nat, code: Word, strokes: nat, box: bool, prev: Option<nat>, x: real, s: Pass, t: Trace)
    requires |l.vertex| == 8 && k < 8
    requires strokes == code * Pow16(k) && strokes * 16 == code * Pow16(k + 1)
    requires s == Turn(l, k, Top(strokes), strokes * 16 == 0, box, prev) && !s.stop
    requires t == Walk(l, k + 1, strokes * 16, s.box, Some(Top(strokes)), s.x)
    requires LineCount(t.cmds) == DrawDigits(code, k + 1)
    ensures LineCount(Walk(l, k, strokes, box, prev, x).cmds) == DrawDigits(code, k)
  {
    NibbleIsDigit(code, k);
    TurnLines(l, k, Top(strokes), strokes * 16 == 0, box, prev);
    WalkUnfold(l, k, strokes, box, prev, x, s, t);
    CountAppend(s.cmds, t.cmds);
  }

  /** A glyph draws exactly as many lines as its code has draw nibbles once the
      modifier is cleared; the centre dot and boxes add moves and relative
      steps only. */
  lemma GlyphLines(p: Pen, code: Word)
    ensures LineCount(DrawGlyph(p, code).cmds) == DrawDigits(Cleared(code), 0)
  {
    var s := GlyphSetup(p, code);
    WalkLines(s.layout, 0, Cleared(code), s.box, None, p.x);
    var t := Walk(s.layout, 0, s.strokes, s.box, None, p.x);
    assert Cleared(code) * Pow16(0) == s.strokes;
    CountAppend(s.dot, t.cmds);
  }

  // The modifier nibble and the owed box

  /** Clearing a modifier leaves a code drawn on the pen's own grid. */
  lemma ClearedPlain(p: Pen, code: Word)
    requires Modified(code)
    ensures GlyphFrame(p, Cleared(code)) == Frame(p.xOrigin, p.yOrigin, p.xScale, p.yScale, p.italic, 1.0, 0.0)
    ensures GlyphSetup(p, Cleared(code)).layout == PlainLayout(p)
  {
    LowNibbleCleared(code);
  }

  lemma LowNibbleCleared(code: nat)
    ensures (code - code % 16) % 16 == 0 && (code - code % 16) % 4 == 0
  {
    var q := code / 16;
    assert code - code % 16 == q * 16;
    MulMod(q);
  }

  lemma MulMod(q: nat)
    ensures (q * 16) % 16 == 0 && (q * 16) % 4 == 0
  {
    assert q * 16 == (q * 4) * 4;
  }

  /** A point's height above the baseline halved, sliding along the slant. */
  function Squash(p: Pen, v: Point): Point {
    var h := v.y - p.yOrigin;
    Point(v.x - h / 2.0 * p.italic, p.yOrigin + h / 2.0)
  }

  /** Low bits 01 halve the vertical scale: every vertex and the centre stand
      half as high above the baseline as on the pen's own grid, while the lead
      point and the box side are unchanged. */
  lemma HalfHeight(p: Pen, code: Word)
    requires Modified(code) && code % 4 == 1
    ensures var l, u := GlyphSetup(p, code).layout, PlainLayout(p);
      && (forall node :: 0 <= node < 8 ==> l.vertex[node] == Squash(p, u.vertex[node]))
      && l.centre == Squash(p, u.centre) && l.lead == u.lead && l.side == u.side
  {
    var g := Frame(p.xOrigin, p.yOrigin, p.xScale, p.yScale, p.italic, 1.0, 0.0);
    assert GlyphFrame(p, code) == g.(scaleY := 0.5);
    assert GlyphSetup(p, code).layout == GridLayout(g.(scaleY := 0.5));
    assert PlainLayout(p) == GridLayout(g);
    HalvedGrid(p, g);
  }

  lemma HalvedGrid(p: Pen, g: Frame)
    requires g == Frame(p.xOrigin, p.yOrigin, p.xScale, p.yScale, p.italic, 1.0, 0.0)
    ensures var l, u := GridLayout(g.(scaleY := 0.5)), GridLayout(g);
      && (forall node :: 0 <= node < 8 ==> l.vertex[node] == Squash(p, u.vertex[node]))
      && l.centre == Squash(p, u.centre) && l.lead == u.lead && l.side == u.side
  {
    forall node | 0 <= node < 8
      ensures Vertex(g.(scaleY := 0.5), node) == Squash(p, Vertex(g, node))
    {
      HalvedVertex(p, g, node);
    }
    HalvedCentre(p, g);
  }

  lemma HalvedVertex(p: Pen, g: Frame, node: nat)
    requires g == Frame(p.xOrigin, p.yOrigin, p.xScale, p.yScale, p.italic, 1.0, 0.0) && node < 8
    ensures Vertex(g.(scaleY := 0.5), node) == Squash(p, Vertex(g, node))
  {
    var h := GridY[node] as real * g.ys;
    var a := g.xo + GridX[node] as real * g.xs;
    assert Vertex(g, node) == Point(a + h * g.italic, g.yo + h);
    assert Vertex(g.(scaleY := 0.5), node) == Point(a + (h * 0.5) * g.italic, g.yo + h * 0.5);
    HalfSlant(a, h, g.italic);
  }

  lemma HalvedCentre(p: Pen, g: Frame)
    requires g == Frame(p.xOrigin, p.yOrigin, p.xScale, p.yScale, p.italic, 1.0, 0.0)
    ensures Centre(g.(scaleY := 0.5)) == Squash(p, Centre(g))
  {
    var h := g.ys;
    var a := g.xo + g.xs;
    assert Centre(g) == Point(a + h * g.italic, g.yo + h);
    assert Centre(g.(scaleY := 0.5)) == Point(a + (h * 0.5) * g.italic, g.yo + h * 0.5);
    HalfSlant(a, h, g.italic);
  }

  /** Halving a height takes half its slant back. */
  lemma HalfSlant(a: real, h: real, it: real)
    ensures a + h * it - h / 2.0 * it == a + (h * 0.5) * it
  {
  }

  /** How far low bits 10 and 11 drop a glyph: y_scale and y_scale/2. */
  function DropOf(p: Pen, code: Word): real {
    if code % 4 == 2 then -p.yScale else -p.yScale / 2.0
  }

  /** The sideways part of a move by `dy` along a slant of `italic`. */
  function Along(dy: real, italic: real): real {
    dy * italic
  }

  /** Low bits 10 and 11 move the whole grid, lead point included, down by the
      drop and left or right along the slant. */
  lemma DropLayout(p: Pen, code: Word)
    requires Modified(code) && code % 4 >= 2
    ensures GlyphSetup(p, code).layout == MovedLayout(PlainLayout(p), Along(DropOf(p, code), p.italic), DropOf(p, code))
  {
    SetupLayout(p, code);
    DropFrame(p, code);
    PlainGrid(p);
    ShiftedGrid(p, DropOf(p, code));
  }

  /** The frame of a dropped glyph is the pen's own, shifted. */
  lemma DropFrame(p: Pen, code: Word)
    requires Modified(code) && code % 4 >= 2
    ensures GlyphFrame(p, code) == Frame(p.xOrigin, p.yOrigin, p.xScale, p.yScale, p.italic, 1.0, DropOf(p, code))
  {
  }

  lemma SetupLayout(p: Pen, code: Word)
    ensures GlyphSetup(p, code).layout == GridLayout(GlyphFrame(p, code))
  {
  }

  lemma PlainGrid(p: Pen)
    ensures PlainLayout(p) == GridLayout(Frame(p.xOrigin, p.yOrigin, p.xScale, p.yScale, p.italic, 1.0, 0.0))
  {
  }

  /** Shifting the pen's unshifted frame moves its grid along the slant. */
  lemma ShiftedGrid(p: Pen, dy: real)
    ensures GridLayout(Frame(p.xOrigin, p.yOrigin, p.xScale, p.yScale, p.italic, 1.0, dy))
         == MovedLayout(GridLayout(Frame(p.xOrigin, p.yOrigin, p.xScale, p.yScale, p.italic, 1.0, 0.0)), Along(dy, p.italic), dy)
  {
    var g := Frame(p.xOrigin, p.yOrigin, p.xScale, p.yScale, p.italic, 1.0, 0.0);
    assert g.(shiftY := dy) == Frame(p.xOrigin, p.yOrigin, p.xScale, p.yScale, p.italic, 1.0, dy);
    var a, b := GridLayout(g.(shiftY := dy)), MovedLayout(GridLayout(g), Along(dy, p.italic), dy);
    forall node | 0 <= node < 8
      ensures a.vertex[node] == b.vertex[node]
    {
      ShiftedVertex(g, dy, node);
    }
    ShiftedPoints(g, dy);
  }

  lemma ShiftedVertex(g: Frame, dy: real, node: nat)
    requires g.shiftY == 0.0 && node < 8
    ensures Vertex(g.(shiftY := dy), node) == MovePoint(Vertex(g, node), Along(dy, g.italic), dy)
  {
    var h := GridY[node] as real * g.ys * g.scaleY;
    var a := g.xo + GridX[node] as real * g.xs;
    assert Vertex(g, node) == Point(a + (h + 0.0) * g.italic, g.yo + (h + 0.0));
    assert Vertex(g.(shiftY := dy), node) == Point(a + (h + dy) * g.italic, g.yo + (h + dy));
  }

  lemma ShiftedPoints(g: Frame, dy: real)
    requires g.shiftY == 0.0
    ensures Centre(g.(shiftY := dy)) == MovePoint(Centre(g), Along(dy, g.italic), dy)
    ensures LeadPoint(g.(shiftY := dy)) == MovePoint(LeadPoint(g), Along(dy, g.italic), dy)
  {
    var h := g.ys * g.scaleY;
    assert Centre(g) == Point(g.xo + g.xs + (h + 0.0) * g.italic, g.yo + (h + 0.0));
    assert Centre(g.(shiftY := dy)) == Point(g.xo + g.xs + (h + dy) * g.italic, g.yo + (h + dy));
  }

  /** A dropped glyph draws the strokes of its cleared code moved down by the
      drop; the centre dot, placed from the undropped grid, stays where it is. */
  lemma DropGlyph(p: Pen, code: Word)
    requires Modified(code) && code % 4 >= 2
    ensures DrawGlyph(p, code).cmds
         == GlyphSetup(p, code).dot
            + Translate(Walk(PlainLayout(p), 0, Cleared(code), HasDot(code), None, p.x).cmds, Along(DropOf(p, code), p.italic), DropOf(p, code))
  {
    var s := GlyphSetup(p, code);
    var dx, dy := Along(DropOf(p, code), p.italic), DropOf(p, code);
    DropLayout(p, code);
    WalkTranslate(PlainLayout(p), s.layout, 0, s.strokes, s.box, None, p.x - dx, dx, dy);
    WalkRegister(PlainLayout(p), 0, s.strokes, s.box, None, p.x - dx, p.x);
    WalkRegister(s.layout, 0, s.strokes, s.box, None, p.x - dx + dx, p.x);
  }

  /** The commands of the loop do not depend on the register it starts with. */
  lemma WalkRegister(l: Layout, k: nat, strokes: nat, box: bool, prev: Option<nat>, x: real, x': real)
    requires |l.vertex| == 8 && k < 8
    ensures Walk(l, k, strokes, box, prev, x) == Walk(l, k, strokes, box, prev, x')
  {
  }

  /** The centre dot's corner: x_scale/2 above and right of the centre of the
      pen's own grid, slanted with the glyph. */
  function DotCorner(p: Pen): Point {
    Point(p.xOrigin + p.xScale + (p.yScale + p.xScale / 2.0) * p.italic, p.yOrigin + p.yScale + p.xScale / 2.0)
  }

  /** What bit 0x04 puts first: a move to the dot's corner and a square of
      side x_scale/2. */
  function DotOpening(p: Pen): seq<Cmd> {
    [MoveTo(DotCorner(p).x, DotCorner(p).y)] + Square(p.xScale / 2.0)
  }

  /** Bit 0x04 opens the glyph, whatever its drop or scale, with the move to
      the dot's corner and the square there. */
  lemma DotOpens(p: Pen, code: Word)
    requires HasDot(code)
    ensures |DrawGlyph(p, code).cmds| >= 5 && DrawGlyph(p, code).cmds[..5] == DotOpening(p)
  {
    var s := GlyphSetup(p, code);
    DotSetup(p, code);
    SetupOpens(s, p.x);
    assert DrawGlyph(p, code) == Render(s, p.x);
  }

  /** A set-up owing a box from the start draws its dot, then the square. */
  lemma SetupOpens(s: Setup, x: real)
    requires |s.layout.vertex| == 8 && s.box && |s.dot| == 1
    ensures |Render(s, x).cmds| >= 5 && Render(s, x).cmds[..5] == s.dot + Square(s.layout.side)
  {
    WalkBox(s.layout, 0, s.strokes, None, x);
    OpensWith(s.dot, Walk(s.layout, 0, s.strokes, true, None, x).cmds, Square(s.layout.side));
  }

  /** What the dot bit selects: the move to the dot's corner, and a box owed
      to the first pass. */
  lemma DotSetup(p: Pen, code: Word)
    requires HasDot(code)
    ensures GlyphSetup(p, code).dot
         == [MoveTo(DotCorner(p).x, DotCorner(p).y)]
    ensures GlyphSetup(p, code).box && GlyphSetup(p, code).layout.side == p.xScale / 2.0
    ensures GlyphSetup(p, code).dot + Square(GlyphSetup(p, code).layout.side) == DotOpening(p)
  {
    var f := GlyphFrame(p, code);
    assert f.xo == p.xOrigin && f.yo == p.yOrigin && f.xs == p.xScale && f.ys == p.yScale && f.italic == p.italic;
    assert GlyphSetup(p, code).dot == [MoveTo(DotPoint(f).x, DotPoint(f).y)];
    assert DotPoint(f).x == DotCorner(p).x && DotPoint(f).y == DotCorner(p).y;
  }

  lemma OpensWith(a: seq<Cmd>, b: seq<Cmd>, sq: seq<Cmd>)
    requires |a| == 1 && |sq| == 4 && |b| >= 4 && b[..4] == sq
    ensures |a + b| >= 5 && (a + b)[..5] == a + sq
  {
    assert (a + b)[..5] == a + b[..4];
  }

  /** A pass that owes a box opens with the square. */
  lemma TurnBox(l: Layout, k: nat, nibble: nat, last: bool, prev: Option<nat>)
    requires |l.vertex| == 8
    ensures |Turn(l, k, nibble, last, true, prev).cmds| >= 4
    ensures Turn(l, k, nibble, last, true, prev).cmds[..4] == Square(l.side)
  {
    var sq := Square(l.side);
    var v := l.vertex[nibble % 8];
    if nibble >= 8 {
      var lead := if k == 0 then [MoveTo(l.lead.x, l.lead.y)] else [];
      PrefixOf(sq, lead + [LineTo(v.x, v.y)]);
      assert sq + lead + [LineTo(v.x, v.y)] == sq + (lead + [LineTo(v.x, v.y)]);
    } else if !last {
      var pt := if prev == Some(0) && nibble == 0 then l.centre else v;
      PrefixOf(sq, [MoveTo(pt.x, pt.y)]);
    } else {
      PrefixOf(sq, []);
    }
  }

  lemma PrefixOf(a: seq<Cmd>, b: seq<Cmd>)
    ensures (a + b)[..|a|] == a
  {
  }

  /** A box owed to a pass of the loop is the first thing it draws. */
  lemma WalkBox(l: Layout, k: nat, strokes: nat, prev: Option<nat>, x: real)
    requires |l.vertex| == 8 && k < 8
    ensures |Walk(l, k, strokes, true, prev, x).cmds| >= 4
    ensures Walk(l, k, strokes, true, prev, x).cmds[..4] == Square(l.side)
  {
    var s := Turn(l, k, Top(strokes), strokes * 16 == 0, true, prev);
    TurnBox(l, k, Top(strokes), strokes * 16 == 0, prev);
    if s.stop {
      WalkStops(l, k, strokes, true, prev, x, s);
    } else {
      var t := Walk(l, k + 1, strokes * 16, s.box, Some(Top(strokes)), s.x);
      WalkUnfold(l, k, strokes, true, prev, x, s, t);
      PrefixKept(s.cmds, t.cmds, Square(l.side));
    }
  }

  /** A pass that ends the loop is all the loop emits from there. */
  lemma WalkStops(l: Layout, k: nat, strokes: nat, box: bool, prev: Option<nat>, x: real, s: Pass)
    requires |l.vertex| == 8 && k < 8
    requires s == Turn(l, k, Top(strokes), strokes * 16 == 0, box, prev) && s.stop
    ensures Walk(l, k, strokes, box, prev, x) == Trace(s.cmds, s.x)
  {
  }

  lemma PrefixKept(a: seq<Cmd>, b: seq<Cmd>, sq: seq<Cmd>)
    requires |sq| == 4 && |a| >= 4 && a[..4] == sq
    ensures |a + b| >= 4 && (a + b)[..4] == sq
  {
    assert (a + b)[..4] == a[..4];
  }

  /** A line drawn back to the vertex just visited owes a box, and no other
      pass does; a drawing pass never ends the loop. */
  lemma OwesBox(l: Layout, k: nat, nibble: nat, last: bool, box: bool, prev: Option<nat>)
    requires |l.vertex| == 8 && nibble < 16
    ensures Turn(l, k, nibble, last, box, prev).box <==> nibble >= 8 && prev.Some? && nibble % 8 == prev.value % 8
    ensures nibble >= 8 ==> !Turn(l, k, nibble, last, box, prev).stop
  {
  }

  /** A repeated vertex before the last pass: the next pass opens with the
      square, at the vertex the line ended on. */
  lemma RepeatDrawsBox(l: Layout, k: nat, strokes: nat, box: bool, prev: Option<nat>, x: real)
    requires |l.vertex| == 8 && k < 7
    requires Top(strokes) >= 8 && prev.Some? && Top(strokes) % 8 == prev.value % 8
    ensures var s := Turn(l, k, Top(strokes), strokes * 16 == 0, box, prev);
      var w := Walk(l, k, strokes, box, prev, x).cmds;
      && |w| >= |s.cmds| + 4 && w[..|s.cmds|] == s.cmds
      && w[|s.cmds|..|s.cmds| + 4] == Square(l.side)
      && s.cmds[|s.cmds| - 1] == LineTo(l.vertex[Top(strokes) % 8].x, l.vertex[Top(strokes) % 8].y)
  {
    var s := Turn(l, k, Top(strokes), strokes * 16 == 0, box, prev);
    OwesBox(l, k, Top(strokes), strokes * 16 == 0, box, prev);
    var t := Walk(l, k + 1, strokes * 16, true, Some(Top(strokes)), s.x);
    WalkBox(l, k + 1, strokes * 16, Some(Top(strokes)), s.x);
    WalkUnfold(l, k, strokes, box, prev, x, s, t);
    BoxAfter(s.cmds, t.cmds, Square(l.side));
  }

  lemma BoxAfter(a: seq<Cmd>, b: seq<Cmd>, sq: seq<Cmd>)
    requires |sq| == 4 && |b| >= 4 && b[..4] == sq
    ensures |a + b| >= |a| + 4 && (a + b)[..|a|] == a && (a + b)[|a|..|a| + 4] == sq
  {
    assert (a + b)[|a|..|a| + 4] == b[..4];
  }

  /** A box owed by the eighth pass is lost: the glyph ends with that pass's
      line. */
  lemma LastBoxLost(l: Layout, strokes: nat, box: bool, prev: Option<nat>, x: real)
    requires |l.vertex| == 8 && Top(strokes) >= 8
    ensures Walk(l, 7, strokes, box, prev, x).cmds == Turn(l, 7, Top(strokes), strokes * 16 == 0, box, prev).cmds
  {
    var s := Turn(l, 7, Top(strokes), strokes * 16 == 0, box, prev);
    assert !s.stop;
    assert s.cmds + [] == s.cmds;
  }

  // Italic

  function ShearPoint(pt: Point, k: real, y0: real): Point {
    Point(pt.x + (pt.y - y0) * k, pt.y)
  }

  function ShearPoints(ps: seq<Point>, k: real, y0: real): (r: seq<Point>)
    ensures |r| == |ps|
    ensures forall i :: 0 <= i < |ps| ==> r[i] == ShearPoint(ps[i], k, y0)
  {
    if ps == [] then [] else [ShearPoint(ps[0], k, y0)] + ShearPoints(ps[1..], k, y0)
  }

  /** A layout sheared about the line y == y0; the box side is unchanged. */
  function ShearedLayout(l: Layout, k: real, y0: real): Layout {
    l.(vertex := ShearPoints(l.vertex, k, y0), centre := ShearPoint(l.centre, k, y0),
       lead := ShearPoint(l.lead, k, y0))
  }

  function ShearedSetup(s: Setup, k: real, y0: real): Setup {
    s.(layout := ShearedLayout(s.layout, k, y0), dot := Shear(s.dot, k, y0))
  }

  /** A one-command move or line to `pt`, sheared, goes to `q`. */
  lemma ShearOneAt(pt: Point, q: Point, line: bool, it: real, y0: real)
    requires q == ShearPoint(pt, it, y0)
    ensures !line ==> Shear([MoveTo(pt.x, pt.y)], it, y0) == [MoveTo(q.x, q.y)]
    ensures line ==> Shear([LineTo(pt.x, pt.y)], it, y0) == [LineTo(q.x, q.y)]
  {
    if line {
      ShearOne(LineTo(pt.x, pt.y), it, y0);
      assert ShearCmd(LineTo(pt.x, pt.y), it, y0) == LineTo(q.x, q.y);
    } else {
      ShearOne(MoveTo(pt.x, pt.y), it, y0);
      assert ShearCmd(MoveTo(pt.x, pt.y), it, y0) == MoveTo(q.x, q.y);
    }
  }

  lemma TurnShear(l: Layout, k: nat, nibble: nat, last: bool, box: bool, prev: Option<nat>, it: real, y0: real)
    requires |l.vertex| == 8
    ensures Turn(ShearedLayout(l, it, y0), k, nibble, last, box, prev).cmds == Shear(Turn(l, k, nibble, last, box, prev).cmds, it, y0)
    ensures Turn(ShearedLayout(l, it, y0), k, nibble, last, box, prev).box == Turn(l, k, nibble, last, box, prev).box
    ensures Turn(ShearedLayout(l, it, y0), k, nibble, last, box, prev).stop == Turn(l, k, nibble, last, box, prev).stop
  {
    var sq := if box then Square(l.side) else [];
    ShearRelative(sq, it, y0);
    if nibble >= 8 {
      DrawShear(l, k, nibble, box, prev, it, y0);
    } else {
      MoveShear(l, k, nibble, last, box, prev, it, y0);
    }
  }

  lemma DrawShear(l: Layout, k: nat, nibble: nat, box: bool, prev: Option<nat>, it: real, y0: real)
    requires |l.vertex| == 8 && nibble >= 8
    requires Shear(if box then Square(l.side) else [], it, y0) == if box then Square(l.side) else []
    ensures Turn(ShearedLayout(l, it, y0), k, nibble, false, box, prev).cmds == Shear(Turn(l, k, nibble, false, box, prev).cmds, it, y0)
  {
    var sq := if box then Square(l.side) else [];
    var m := ShearedLayout(l, it, y0);
    var v := l.vertex[nibble % 8];
    var lead := if k == 0 then [MoveTo(l.lead.x, l.lead.y)] else [];
    var lead' := if k == 0 then [MoveTo(m.lead.x, m.lead.y)] else [];
    var v' := m.vertex[nibble % 8];
    assert Turn(m, k, nibble, false, box, prev).cmds == sq + lead' + [LineTo(v'.x, v'.y)];
    ShearOneAt(l.lead, m.lead, false, it, y0);
    ShearOneAt(v, v', true, it, y0);
    ShearAppend(sq + lead, [LineTo(v.x, v.y)], it, y0);
    ShearAppend(sq, lead, it, y0);
  }

  lemma MoveShear(l: Layout, k: nat, nibble: nat, last: bool, box: bool, prev: Option<nat>, it: real, y0: real)
    requires |l.vertex| == 8 && nibble < 8
    requires Shear(if box then Square(l.side) else [], it, y0) == if box then Square(l.side) else []
    ensures Turn(ShearedLayout(l, it, y0), k, nibble, last, box, prev).cmds == Shear(Turn(l, k, nibble, last, box, prev).cmds, it, y0)
  {
    var sq := if box then Square(l.side) else [];
    if !last {
      var m := ShearedLayout(l, it, y0);
      var pt := if prev == Some(0) && nibble == 0 then l.centre else l.vertex[nibble % 8];
      var pt' := if prev == Some(0) && nibble == 0 then m.centre else m.vertex[nibble % 8];
      assert pt' == ShearPoint(pt, it, y0);
      assert Turn(m, k, nibble, last, box, prev).cmds == sq + [MoveTo(pt'.x, pt'.y)];
      ShearOneAt(pt, pt', false, it, y0);
      ShearAppend(sq, [MoveTo(pt.x, pt.y)], it, y0);
    }
  }

  /** Shearing the layout shears every absolute point the loop emits, whatever
      the register held. */
  lemma {:induction false} WalkShear(l: Layout, k: nat, strokes: nat, box: bool, prev: Option<nat>, x: real, x': real, it: real, y0: real)
    requires |l.vertex| == 8 && k <= 8
    ensures Walk(ShearedLayout(l, it, y0), k, strokes, box, prev, x').cmds == Shear(Walk(l, k, strokes, box, prev, x).cmds, it, y0)
    decreases 8 - k
  {
    if k < 8 {
      var nibble, last := Top(strokes), strokes * 16 == 0;
      var m := ShearedLayout(l, it, y0);
      var s := Turn(l, k, nibble, last, box, prev);
      var sm := Turn(m, k, nibble, last, box, prev);
      TurnShear(l, k, nibble, last, box, prev, it, y0);
      if !s.stop {
        var t := Walk(l, k + 1, strokes * 16, s.box, Some(nibble), s.x);
        var tm := Walk(m, k + 1, strokes * 16, sm.box, Some(nibble), sm.x);
        WalkShear(l, k + 1, strokes * 16, s.box, Some(nibble), s.x, sm.x, it, y0);
        assert Walk(m, k, strokes, box, prev, x').cmds == sm.cmds + tm.cmds;
        ShearAppend(s.cmds, t.cmds, it, y0);
      }
    }
  }

  lemma RenderShear(s: Setup, x: real, x': real, it: real, y0: real)
    requires |s.layout.vertex| == 8
    ensures Render(ShearedSetup(s, it, y0), x').cmds == Shear(Render(s, x).cmds, it, y0)
  {
    var w := Walk(s.layout, 0, s.strokes, s.box, None, x);
    WalkShear(s.layout, 0, s.strokes, s.box, None, x, x', it, y0);
    ShearAppend(s.dot, w.cmds, it, y0);
  }

  lemma VertexSheared(f: Frame, node: nat)
    requires node < 8
    ensures Vertex(f, node) == ShearPoint(Vertex(f.(italic := 0.0), node), f.italic, f.yo)
  {
    var yOrd := GridY[node] as real * f.ys * f.scaleY + f.shiftY;
    var a := f.xo + GridX[node] as real * f.xs;
    assert Vertex(f, node) == Point(a + yOrd * f.italic, f.yo + yOrd);
    assert Vertex(f.(italic := 0.0), node) == Point(a, f.yo + yOrd);
  }

  lemma PointsSheared(f: Frame)
    ensures Centre(f) == ShearPoint(Centre(f.(italic := 0.0)), f.italic, f.yo)
    ensures LeadPoint(f) == ShearPoint(LeadPoint(f.(italic := 0.0)), f.italic, f.yo)
    ensures DotPoint(f) == ShearPoint(DotPoint(f.(italic := 0.0)), f.italic, f.yo)
  {
    var c := f.ys * f.scaleY + f.shiftY;
    assert Centre(f.(italic := 0.0)) == Point(f.xo + f.xs, f.yo + c);
    var h := f.ys + f.xs / 2.0;
    assert DotPoint(f.(italic := 0.0)) == Point(f.xo + f.xs, f.yo + h);
    assert DotPoint(f) == Point(f.xo + f.xs + h * f.italic, f.yo + h);
  }

  lemma LayoutSheared(f: Frame)
    ensures GridLayout(f) == ShearedLayout(GridLayout(f.(italic := 0.0)), f.italic, f.yo)
  {
    var a := GridLayout(f);
    var b := ShearedLayout(GridLayout(f.(italic := 0.0)), f.italic, f.yo);
    forall node | 0 <= node < 8
      ensures a.vertex[node] == b.vertex[node]
    {
      VertexSheared(f, node);
    }
    PointsSheared(f);
  }

  lemma DotSheared(f: Frame)
    ensures [MoveTo(DotPoint(f).x, DotPoint(f).y)]
         == Shear([MoveTo(DotPoint(f.(italic := 0.0)).x, DotPoint(f.(italic := 0.0)).y)], f.italic, f.yo)
  {
    PointsSheared(f);
    ShearOneAt(DotPoint(f.(italic := 0.0)), DotPoint(f), false, f.italic, f.yo);
  }

  lemma SetupSheared(p: Pen, code: Word)
    ensures GlyphSetup(p, code) == ShearedSetup(GlyphSetup(p.(italic := 0.0), code), p.italic, p.yOrigin)
  {
    var f := GlyphFrame(p, code);
    assert GlyphFrame(p.(italic := 0.0), code) == f.(italic := 0.0);
    assert f.italic == p.italic && f.yo == p.yOrigin;
    LayoutSheared(f);
    DotSheared(f);
  }

  /** Italic text is the upright glyph sheared about the baseline by the slant:
      every absolute point moves right by its height times the slant, while the
      dot boxes stay square. */
  lemma GlyphItalic(p: Pen, code: Word)
    ensures DrawGlyph(p, code).cmds == Shear(DrawGlyph(p.(italic := 0.0), code).cmds, p.italic, p.yOrigin)
  {
    SetupSheared(p, code);
    RenderShear(GlyphSetup(p.(italic := 0.0), code), p.x, p.x, p.italic, p.yOrigin);
  }

  // The '^' and '_' rows

  /** Once the low 32 bits are spent, the remaining passes only move: the
      program's "trailing zeros" still emit moves, to vertex 0 and then to the
      centre, but draw nothing. */
  lemma {:induction false} TailMoves(l: Layout, k: nat, strokes: nat, prev: Option<nat>, x: real)
    requires |l.vertex| == 8 && k <= 8
    requires strokes % 0x1_0000_0000 == 0
    ensures forall i :: 0 <= i < |Walk(l, k, strokes, false, prev, x).cmds| ==> Walk(l, k, strokes, false, prev, x).cmds[i].MoveTo?
    decreases 8 - k
  {
    if k < 8 {
      assert Top(strokes) == 0;
      var s := Turn(l, k, 0, strokes * 16 == 0, false, prev);
      if !s.stop {
        var m := strokes / 0x1_0000_0000;
        assert strokes * 16 == (16 * m) * 0x1_0000_0000;
        TailMoves(l, k + 1, strokes * 16, Some(0), s.x);
      }
    }
  }

  /** The loop's early exit tests the shifted word itself, which is never
      masked back to 32 bits: after `k` shifts it is `code * 16^k`, and the
      test after pass `k` fails for every non-zero code. So only code 0 leaves
      the loop early; every other glyph runs all eight passes. */
  lemma PassRunsOn(l: Layout, k: nat, code: nat, box: bool, prev: Option<nat>)
    requires |l.vertex| == 8 && code != 0
    ensures !Turn(l, k, Top(code * Pow16(k)), code * Pow16(k) * 16 == 0, box, prev).stop
  {
    AtLeastOnce(code, Pow16(k) * 16);
    assert code * Pow16(k) * 16 == code * (Pow16(k) * 16);
  }

  /** A non-zero code whose nibbles read in passes 6 and 7 are zero (for a
      32-bit code, its last two digits) ends its walk with a move to the centre,
      and leaves the register at the centre's x: its "trailing" zeros are not
      skipped but read as the two-zero centre move. */
  lemma {:induction false} TrailingZerosReachCentre(l: Layout, k: nat, code: nat, box: bool, prev: Option<nat>, x: real)
    requires |l.vertex| == 8 && code != 0 && k <= 7
    requires Top(code * Pow16(6)) == 0 && Top(code * Pow16(7)) == 0
    requires k == 7 ==> prev == Some(0)
    ensures EndsAtCentre(l, Walk(l, k, code * Pow16(k), box, prev, x))
    decreases 8 - k
  {
    if k < 7 {
      var s := Turn(l, k, Top(code * Pow16(k)), code * Pow16(k) * 16 == 0, box, prev);
      TrailingZerosReachCentre(l, k + 1, code, s.box, Some(Top(code * Pow16(k))), s.x);
      CentreCodePass(l, k, code, box, prev, x);
    } else {
      PassRunsOn(l, 7, code, box, prev);
      CentreLastPass(l, code * Pow16(7), box, x);
    }
  }

  /** `CentrePass` for the word a code becomes after `k` shifts. */
  lemma CentreCodePass(l: Layout, k: nat, code: nat, box: bool, prev: Option<nat>, x: real)
    requires |l.vertex| == 8 && code != 0 && k < 7
    requires var s := Turn(l, k, Top(code * Pow16(k)), code * Pow16(k) * 16 == 0, box, prev);
      EndsAtCentre(l, Walk(l, k + 1, code * Pow16(k + 1), s.box, Some(Top(code * Pow16(k))), s.x))
    ensures EndsAtCentre(l, Walk(l, k, code * Pow16(k), box, prev, x))
  {
    var strokes := code * Pow16(k);
    var s := Turn(l, k, Top(strokes), strokes * 16 == 0, box, prev);
    ShiftPow(code, k);
    PassRunsOn(l, k, code, box, prev);
    CentrePass(l, k, strokes, box, prev, x, s, Walk(l, k + 1, strokes * 16, s.box, Some(Top(strokes)), s.x));
  }

  /** The trace's last command is a move to the centre, and its register holds
      the centre's x. */
  predicate EndsAtCentre(l: Layout, t: Trace) {
    t.cmds != [] && t.cmds[|t.cmds| - 1] == MoveTo(l.centre.x, l.centre.y) && t.x == l.centre.x
  }

  /** A pass that does not end the loop keeps the ending of the rest of the walk. */
  lemma CentrePass(l: Layout, k: nat, strokes: nat, box: bool, prev: Option<nat>, x: real, s: Pass, t: Trace)
    requires |l.vertex| == 8 && k < 8
    requires s == Turn(l, k, Top(strokes), strokes * 16 == 0, box, prev) && !s.stop
    requires t == Walk(l, k + 1, strokes * 16, s.box, Some(Top(strokes)), s.x)
    requires EndsAtCentre(l, t)
    ensures EndsAtCentre(l, Walk(l, k, strokes, box, prev, x))
  {
    WalkUnfold(l, k, strokes, box, prev, x, s, t);
    assert (s.cmds + t.cmds)[|s.cmds + t.cmds| - 1] == t.cmds[|t.cmds| - 1];
  }

  /** The eighth pass, reading a zero after a zero with bits still left: a move
      to the centre. */
  lemma CentreLastPass(l: Layout, strokes: nat, box: bool, x: real)
    requires |l.vertex| == 8 && Top(strokes) == 0 && strokes * 16 != 0
    ensures EndsAtCentre(l, Walk(l, 7, strokes, box, Some(0), x))
  {
    var sq := if box then Square(l.side) else [];
    var s := Turn(l, 7, 0, false, box, Some(0));
    assert s == Pass(sq + [MoveTo(l.centre.x, l.centre.y)], false, l.centre.x, false);
    var t := Walk(l, 8, strokes * 16, false, Some(0), l.centre.x);
    assert t == Trace([], l.centre.x);
    WalkUnfold(l, 7, strokes, box, Some(0), x, s, t);
    assert s.cmds + t.cmds == sq + [MoveTo(l.centre.x, l.centre.y)];
  }

  /** A glyph whose command word, modifier cleared, is non-zero and ends in two
      zero digits: its last command is a move to the centre of its grid, and the
      register it leaves behind holds the centre's x. */
  lemma TrailingZerosEndAtCentre(p: Pen, code: Word)
    requires Cleared(code) != 0 && Digit(Cleared(code), 6) == 0 && Digit(Cleared(code), 7) == 0
    ensures var t, c := DrawGlyph(p, code), Centre(GlyphFrame(p, code));
      t.cmds != [] && t.cmds[|t.cmds| - 1] == MoveTo(c.x, c.y) && t.x == c.x
  {
    var s := GlyphSetup(p, code);
    assert s.strokes * Pow16(0) == s.strokes;
    NibbleIsDigit(s.strokes, 6);
    NibbleIsDigit(s.strokes, 7);
    TrailingZerosReachCentre(s.layout, 0, s.strokes, s.box, None, p.x);
    var t := Walk(s.layout, 0, s.strokes, s.box, None, p.x);
    assert (s.dot + t.cmds)[|s.dot + t.cmds| - 1] == t.cmds[|t.cmds| - 1];
  }

  /** A non-zero code ending in two zero digits is drawn on the plain grid,
      so the register it leaves holds the x of that grid's centre. */
  lemma ZeroEndedCentre(p: Pen, code: Word)
    requires code != 0 && code % 256 == 0
    ensures DrawGlyph(p, code).x == p.xOrigin + p.xScale + p.yScale * p.italic
  {
    assert code % 16 == 0 && Cleared(code) == code;
    assert Digit(code, 7) == 0;
    assert Digit(code, 6) == 0 by {
      assert code / 16 == 16 * (code / 256);
    }
    TrailingZerosEndAtCentre(p, code);
    ClearedPlain(p, code);
    PlainCentre(p);
  }

  lemma PlainCentre(p: Pen)
    ensures Centre(Frame(p.xOrigin, p.yOrigin, p.xScale, p.yScale, p.italic, 1.0, 0.0)).x
         == p.xOrigin + p.xScale + p.yScale * p.italic
  {
  }

  /** 'A' (0x2FD83C00), in either reading of the table: after its last stroke
      its two zero digits move the pen to the centre, and the register is left
      at the centre's x. */
  lemma UpperACentre(d: Dialect, p: Pen)
    ensures DrawGlyph(p, Code(d, 'A')).x == p.xOrigin + p.xScale + p.yScale * p.italic
  {
    UpperACode(d);
    ZeroEndedCentre(p, Code(d, 'A'));
  }

  lemma UpperACode(d: Dialect)
    ensures Code(d, 'A') == 0x2FD8_3C00
  {
    assert Index('A') == 33;
  }

  /** The first pass of a code whose top nibble draws: a move to the lead-in
      point and a line to the nibble's vertex. */
  lemma WalkLead(l: Layout, strokes: nat, x: real)
    requires |l.vertex| == 8 && Top(strokes) >= 8
    ensures var v := l.vertex[Top(strokes) % 8];
      Walk(l, 0, strokes, false, None, x).cmds
      == [MoveTo(l.lead.x, l.lead.y), LineTo(v.x, v.y)] + Walk(l, 1, strokes * 16, false, Some(Top(strokes)), v.x).cmds
  {
    var v := l.vertex[Top(strokes) % 8];
    assert [] + [MoveTo(l.lead.x, l.lead.y)] + [LineTo(v.x, v.y)] == [MoveTo(l.lead.x, l.lead.y), LineTo(v.x, v.y)];
  }

  /** The first pass of a code whose top nibble moves, when bits remain. */
  lemma WalkMove(l: Layout, strokes: nat, x: real)
    requires |l.vertex| == 8 && Top(strokes) < 8 && strokes > 0
    ensures var v := l.vertex[Top(strokes) % 8];
      Walk(l, 0, strokes, false, None, x).cmds
      == [MoveTo(v.x, v.y)] + Walk(l, 1, strokes * 16, false, Some(Top(strokes)), v.x).cmds
  {
    var v := l.vertex[Top(strokes) % 8];
    assert [] + [MoveTo(v.x, v.y)] == [MoveTo(v.x, v.y)];
  }

  /** A later pass that draws to a vertex other than the previous one. */
  lemma WalkLine(l: Layout, k: nat, strokes: nat, prev: Option<nat>, x: real)
    requires |l.vertex| == 8 && 0 < k < 8
    requires Top(strokes) >= 8 && prev.Some? && Top(strokes) % 8 != prev.value % 8
    ensures var v := l.vertex[Top(strokes) % 8];
      Walk(l, k, strokes, false, prev, x).cmds
      == [LineTo(v.x, v.y)] + Walk(l, k + 1, strokes * 16, false, Some(Top(strokes)), v.x).cmds
  {
    var v := l.vertex[Top(strokes) % 8];
    assert [] + [] + [LineTo(v.x, v.y)] == [LineTo(v.x, v.y)];
  }

  /** Code 0xA0000000 draws one segment, from vertex 0 to vertex 2. */
  lemma UnderscoreSegments(l: Layout, x: real, start: Point, at: Point)
    requires |l.vertex| == 8
    ensures Segments(Walk(l, 0, 0xA000_0000, false, None, x).cmds, start, at) == [Segment(l.lead, l.vertex[2])]
  {
    var v := l.vertex[2];
    assert Top(0xA000_0000) == 10;
    WalkLead(l, 0xA000_0000, x);
    var t := Walk(l, 1, 0xA_0000_0000, false, Some(10), v.x);
    TailMoves(l, 1, 0xA_0000_0000, Some(10), v.x);
    MovesDrawNothing(t.cmds, l.lead, v);
    LeadSegments(l.lead, v, t.cmds, start, at);
  }

  /** A move and a line, then moves alone: one segment. */
  lemma LeadSegments(a: Point, b: Point, rest: seq<Cmd>, start: Point, at: Point)
    requires Segments(rest, a, b) == []
    ensures Segments([MoveTo(a.x, a.y), LineTo(b.x, b.y)] + rest, start, at) == [Segment(a, b)]
  {
    var cs := [MoveTo(a.x, a.y), LineTo(b.x, b.y)] + rest;
    assert cs[1..][1..] == rest;
  }

  /** The first three passes of code 0x3EC00000: move to 3, draw to 6, draw to 4. */
  lemma CaretWalk(l: Layout, x: real)
    requires |l.vertex| == 8
    ensures Walk(l, 0, 0x3EC0_0000, false, None, x).cmds
         == [MoveTo(l.vertex[3].x, l.vertex[3].y)]
            + ([LineTo(l.vertex[6].x, l.vertex[6].y)]
            + ([LineTo(l.vertex[4].x, l.vertex[4].y)]
            + Walk(l, 3, 0x3EC_0000_0000, false, Some(12), l.vertex[4].x).cmds))
  {
    assert Top(0x3EC0_0000) == 3;
    WalkMove(l, 0x3EC0_0000, x);
    CaretLines(l);
  }

  /** Passes 1 and 2 of code 0x3EC00000: draw to 6, then to 4. */
  lemma CaretLines(l: Layout)
    requires |l.vertex| == 8
    ensures var v6, v4 := l.vertex[6], l.vertex[4];
      Walk(l, 1, 0x3_EC00_0000, false, Some(3), l.vertex[3].x).cmds
      == [LineTo(v6.x, v6.y)] + ([LineTo(v4.x, v4.y)] + Walk(l, 3, 0x3EC_0000_0000, false, Some(12), v4.x).cmds)
  {
    assert Top(0x3_EC00_0000) == 14 && Top(0x3E_C000_0000) == 12;
    TwoLines(l, 1, 0x3_EC00_0000, Some(3), l.vertex[3].x);
  }

  /** Two passes that draw, each to a vertex other than the one before. */
  lemma TwoLines(l: Layout, k: nat, strokes: nat, prev: Option<nat>, x: real)
    requires |l.vertex| == 8 && 0 < k < 7
    requires Top(strokes) >= 8 && prev.Some? && Top(strokes) % 8 != prev.value % 8
    requires Top(strokes * 16) >= 8 && Top(strokes * 16) % 8 != Top(strokes) % 8
    ensures var v, w := l.vertex[Top(strokes) % 8], l.vertex[Top(strokes * 16) % 8];
      Walk(l, k, strokes, false, prev, x).cmds
      == [LineTo(v.x, v.y)] + ([LineTo(w.x, w.y)] + Walk(l, k + 2, strokes * 16 * 16, false, Some(Top(strokes * 16)), w.x).cmds)
  {
    WalkLine(l, k, strokes, prev, x);
    WalkLine(l, k + 1, strokes * 16, Some(Top(strokes)), l.vertex[Top(strokes) % 8].x);
  }

  /** Code 0x3EC00000 draws two segments, vertex 3 to 6 to 4: a caret. */
  lemma CaretSegments(l: Layout, x: real, start: Point, at: Point)
    requires |l.vertex| == 8
    ensures Segments(Walk(l, 0, 0x3EC0_0000, false, None, x).cmds, start, at)
         == [Segment(l.vertex[3], l.vertex[6]), Segment(l.vertex[6], l.vertex[4])]
  {
    var v3, v6, v4 := l.vertex[3], l.vertex[6], l.vertex[4];
    var t := Walk(l, 3, 0x3EC_0000_0000, false, Some(12), v4.x);
    TailMoves(l, 3, 0x3EC_0000_0000, Some(12), v4.x);
    MovesDrawNothing(t.cmds, v3, v4);
    CaretWalk(l, x);
    CaretPath(v3, v6, v4, t.cmds, start, at);
  }

  /** A move and two lines, then moves alone: two segments. */
  lemma CaretPath(a: Point, b: Point, c: Point, rest: seq<Cmd>, start: Point, at: Point)
    requires Segments(rest, a, c) == []
    ensures Segments([MoveTo(a.x, a.y)] + ([LineTo(b.x, b.y)] + ([LineTo(c.x, c.y)] + rest)), start, at)
         == [Segment(a, b), Segment(b, c)]
  {
    var r2 := [LineTo(c.x, c.y)] + rest;
    var r1 := [LineTo(b.x, b.y)] + r2;
    var cs := [MoveTo(a.x, a.y)] + r1;
    assert cs[1..] == r1 && r1[1..] == r2 && r2[1..] == rest;
    assert Segments(r1[1..], a, b) == [Segment(b, c)];
  }

  /** Grid point (gx, gy) of a glyph without modifier, slanted by the pen's italic. */
  function GridPoint(p: Pen, gx: real, gy: real): Point {
    Point(p.xOrigin + gx * p.xScale + gy * p.yScale * p.italic, p.yOrigin + gy * p.yScale)
  }

  /** The two codes have no modifier: the frame is the pen's own. */
  lemma PlainSetup(p: Pen, code: Word)
    requires code == 0xA000_0000 || code == 0x3EC0_0000
    ensures GlyphSetup(p, code) == Setup(PlainLayout(p), [], code, false)
  {
    assert code % 16 == 0 && code % 4 == 0 && (code / 4) % 2 == 0;
  }

  /** The layout of a glyph without modifier. */
  function PlainLayout(p: Pen): (l: Layout)
    ensures |l.vertex| == 8
  {
    GridLayout(Frame(p.xOrigin, p.yOrigin, p.xScale, p.yScale, p.italic, 1.0, 0.0))
  }

  lemma PlainGlyph(p: Pen, code: Word)
    requires code == 0xA000_0000 || code == 0x3EC0_0000
    ensures DrawGlyph(p, code).cmds == Walk(PlainLayout(p), 0, code, false, None, p.x).cmds
  {
    PlainSetup(p, code);
    var w := Walk(PlainLayout(p), 0, code, false, None, p.x);
    assert [] + w.cmds == w.cmds;
  }

  lemma PlainPoints(p: Pen)
    ensures PlainLayout(p).lead == GridPoint(p, 0.0, 0.0)
    ensures PlainLayout(p).vertex[2] == GridPoint(p, 2.0, 0.0)
    ensures PlainLayout(p).vertex[3] == GridPoint(p, 0.0, 1.0)
    ensures PlainLayout(p).vertex[6] == GridPoint(p, 1.0, 2.0)
    ensures PlainLayout(p).vertex[4] == GridPoint(p, 2.0, 1.0)
  {
  }

  /** What code 0xA0000000 draws: the baseline from (0, 0) to (2, 0), an underscore. */
  lemma UnderscoreGlyph(p: Pen, start: Point, at: Point)
    ensures Segments(DrawGlyph(p, 0xA000_0000).cmds, start, at)
         == [Segment(GridPoint(p, 0.0, 0.0), GridPoint(p, 2.0, 0.0))]
  {
    PlainGlyph(p, 0xA000_0000);
    UnderscoreSegments(PlainLayout(p), p.x, start, at);
    PlainPoints(p);
  }

  /** What code 0x3EC00000 draws: (0, 1) up to (1, 2) and down to (2, 1), a caret. */
  lemma CaretGlyph(p: Pen, start: Point, at: Point)
    ensures Segments(DrawGlyph(p, 0x3EC0_0000).cmds, start, at)
         == [Segment(GridPoint(p, 0.0, 1.0), GridPoint(p, 1.0, 2.0)), Segment(GridPoint(p, 1.0, 2.0), GridPoint(p, 2.0, 1.0))]
  {
    PlainGlyph(p, 0x3EC0_0000);
    CaretSegments(PlainLayout(p), p.x, start, at);
    PlainPoints(p);
  }

  /** As written, '^' gets the underscore and '_' the caret; corrected, each
      character gets its own glyph. */
  lemma CaretRows()
    ensures Code(AsWritten, '^') == 0xA000_0000 && Code(AsWritten, '_') == 0x3EC0_0000
    ensures Code(Corrected, '^') == 0x3EC0_0000 && Code(Corrected, '_') == 0xA000_0000
  {
    assert Strokes[62] == 0xA000_0000;
    assert Strokes[63] == 0x3EC0_0000;
  }

  /** As written, '^' draws a flat line along the baseline: an underscore. */
  lemma CaretAsWritten(p: Pen, start: Point, at: Point)
    ensures Segments(DrawGlyph(p, Code(AsWritten, '^')).cmds, start, at)
         == [Segment(GridPoint(p, 0.0, 0.0), GridPoint(p, 2.0, 0.0))]
  {
    CaretRows();
    UnderscoreGlyph(p, start, at);
  }

  /** Corrected, '^' draws the caret and '_' the underscore. */
  lemma CaretCorrected(p: Pen, start: Point, at: Point)
    ensures Segments(DrawGlyph(p, Code(Corrected, '^')).cmds, start, at)
         == [Segment(GridPoint(p, 0.0, 1.0), GridPoint(p, 1.0, 2.0)), Segment(GridPoint(p, 1.0, 2.0), GridPoint(p, 2.0, 1.0))]
    ensures Segments(DrawGlyph(p, Code(Corrected, '_')).cmds, start, at)
         == [Segment(GridPoint(p, 0.0, 0.0), GridPoint(p, 2.0, 0.0))]
  {
    CaretRows();
    CaretGlyph(p, start, at);
    UnderscoreGlyph(p, start, at);
  }
}
