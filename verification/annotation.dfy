/** `annotation_path`: text stroked with the built-in single-line font.

    A glyph is 2 x-units wide and 2 y-units tall on a 3x3 vertex grid, with a pitch
    of 3 x-units; a line is 3 y-units below the previous one. The x-unit is a
    quarter and the y-unit a half of the requested size. Control characters change
    the pen (position, scale, italic slant, underlining) instead of drawing.

    Two readings are modelled side by side, selected by `Dialect`: `AsWritten` is
    the program's behaviour, `Corrected` repairs the two defects listed in the
    README (newline start position, and the swapped '^'/'_' table entries).
 */
module Annotation {
  import opened Wrappers
  import opened PathCmd
  import opened Lines
  import opened Nibbles
  import opened AnnotationTable

  /** Alignment flags; left and baseline are the zero defaults. */
  const CentreAlign: nat := 0x02
  const RightAlign: nat := 0x04
  const TopAlign: nat := 0x08
  const MidAlign: nat := 0x10

  /** The last character with a glyph of its own. */
  const LastChar: char := '\U{85}'

  /** Grid coordinates of the nine vertices, indexed by the low three bits of a
      command; the program packs them as nibbles of 0x21020210 (x) and 0x22211000 (y). */
  const GridX: seq<nat> := [0, 1, 2, 0, 2, 0, 1, 2]
  const GridY: seq<nat> := [0, 0, 0, 1, 1, 2, 2, 2]

  datatype Dialect = AsWritten | Corrected

  /** The drawing state between characters. `x` is the program's `x` register:
      set to the line start before the first character, and (as written) also
      overwritten by every vertex a glyph visits. */
  datatype Pen = Pen(xOrigin: real, yOrigin: real, xScale: real, yScale: real,
                     italic: real, underline: bool, x: real)
  {
    function Moved(dx: real, dy: real): Pen {
      this.(xOrigin := xOrigin + dx, yOrigin := yOrigin + dy, x := x + dx)
    }
  }

  datatype Control =
    | Newline | Lower | Higher | Narrower | Wider | Shorter | Taller
    | Backspace | UnderlineToggle | Italic(level: nat)

  predicate Printable(c: char) {
    ' ' <= c <= LastChar
  }

  /** The characters with a fixed control meaning; 0xF0 to 0xFF set the slant. */
  const ControlChars: set<char> :=
    {'\n', '\U{08}', '\U{0E}', '\U{0F}', '\U{10}', '\U{11}', '\U{1B}', '\U{1E}', '\U{1F}'}

  /** The control a character stands for, if any. */
  function ControlOf(c: char): (k: Option<Control>)
    ensures k.Some? <==> c in ControlChars || '\U{F0}' <= c <= '\U{FF}'
    ensures '\U{F0}' <= c <= '\U{FF}' ==> k == Some(Italic(c as int - 0xF0))
    ensures k.Some? ==> !Printable(c)
    ensures k.Some? && k.value.Italic? ==> k.value.level <= 15
    ensures c == '\n' <==> k == Some(Newline)
  {
    if c == '\n' then Some(Newline)
    else if c == '\U{11}' then Some(Lower)
    else if c == '\U{10}' then Some(Higher)
    else if c == '\U{0F}' then Some(Narrower)
    else if c == '\U{0E}' then Some(Wider)
    else if c == '\U{1F}' then Some(Shorter)
    else if c == '\U{1E}' then Some(Taller)
    else if c == '\U{08}' then Some(Backspace)
    else if c == '\U{1B}' then Some(UnderlineToggle)
    else if '\U{F0}' <= c <= '\U{FF}' then Some(Italic(c as int - 0xF0))
    else None
  }

  function ApplyControl(p: Pen, k: Control): Pen {
    match k
    case Newline => p.(xOrigin := p.x, yOrigin := p.yOrigin - 3.0 * p.yScale)
    case Lower => p.(yOrigin := p.yOrigin - 0.25 * p.yScale)
    case Higher => p.(yOrigin := p.yOrigin + 0.25 * p.yScale)
    case Narrower => p.(xScale := p.xScale * 0.75)
    case Wider => p.(xScale := p.xScale / 0.75)
    case Shorter => p.(yScale := p.yScale * 0.75)
    case Taller => p.(yScale := p.yScale / 0.75)
    case Backspace => p.(xOrigin := p.xOrigin - 3.0 * p.xScale)
    case UnderlineToggle => p.(underline := !p.underline)
    case Italic(n) => p.(italic := n as real / 15.0)
  }

  /** The table row drawn for a non-control character: its own, or '?' when it
      has none. */
  function Index(c: char): (i: nat)
    ensures i < |Strokes|
    ensures Printable(c) ==> 0x20 + i == c as int
    ensures !Printable(c) ==> 0x20 + i == '?' as int
  {
    if Printable(c) then c as int - 0x20 else 31
  }

  /** The code drawn for `c`. The corrected reading exchanges rows 62 and 63, so
      that '^' (0x5E) gets the caret and '_' (0x5F) the underscore. */
  function Code(d: Dialect, c: char): Word {
    var i := Index(c);
    if d == Corrected && (i == 62 || i == 63) then Strokes[125 - i] else Strokes[i]
  }

  /** Everything a glyph's vertices depend on: the pen's origin, scales and
      slant, and the vertical scale and shift the glyph's final nibble selects. */
  datatype Frame = Frame(xo: real, yo: real, xs: real, ys: real, italic: real,
                         scaleY: real, shiftY: real)

  /** Vertex `node` of the grid: its height is scaled and shifted, and the
      slant moves it right in proportion to that height. */
  function Vertex(f: Frame, node: nat): Point
    requires node < 8
  {
    var yOrd := GridY[node] as real * f.ys * f.scaleY + f.shiftY;
    Point(f.xo + GridX[node] as real * f.xs + yOrd * f.italic, f.yo + yOrd)
  }

  /** The centre of the grid, reached by two consecutive zero nibbles. */
  function Centre(f: Frame): Point {
    var yOrd := f.ys * f.scaleY + f.shiftY;
    Point(f.xo + f.xs + yOrd * f.italic, f.yo + yOrd)
  }

  /** Where a glyph that opens with a draw starts: vertex 0, shifted. */
  function LeadPoint(f: Frame): Point {
    Point(f.xo + f.shiftY * f.italic, f.yo + f.shiftY)
  }

  /** The centre dot's corner: half a box above and right of the unshifted centre. */
  function DotPoint(f: Frame): Point {
    Point(f.xo + f.xs + (f.ys + f.xs / 2.0) * f.italic, f.yo + f.ys + f.xs / 2.0)
  }

  /** The points one glyph can visit, and the side of its boxes. */
  datatype Layout = Layout(vertex: seq<Point>, centre: Point, lead: Point, side: real)

  function GridLayout(f: Frame): (l: Layout)
    ensures |l.vertex| == 8
  {
    Layout(seq(8, node requires 0 <= node < 8 => Vertex(f, node)), Centre(f), LeadPoint(f), f.xs / 2.0)
  }

  /** The small box drawn for a zero-length stroke: relative commands only, so
      it is drawn wherever the pen stands, and it closes on itself. */
  function Square(side: real): (sq: seq<Cmd>)
    ensures AbsoluteCount(sq) == 0
    ensures NetDx(sq) == 0.0 && NetDy(sq) == 0.0
  {
    var sq := [HorzBy(side), VertBy(side), HorzBy(-side), VertBy(-side)];
    var tail := [HorzBy(-side), VertBy(-side)];
    var last := [VertBy(-side)];
    assert last[1..] == [];
    assert NetDx(last) == 0.0 && NetDy(last) == -side && AbsoluteCount(last) == 0;
    assert tail[1..] == last;
    assert NetDx(tail) == -side && NetDy(tail) == -side && AbsoluteCount(tail) == 0;
    assert sq[1..][1..] == tail;
    sq
  }

  /** The commands a glyph emits, and the last vertex x it computed. */
  datatype Trace = Trace(cmds: seq<Cmd>, x: real)

  /** What one pass of the command loop does: the commands it emits, whether it
      leaves a box owed, the register's new value, and whether it ends the loop. */
  datatype Pass = Pass(cmds: seq<Cmd>, box: bool, x: real, stop: bool)

  /** Pass `k` of the eight-pass command loop, for command `nibble`; `last` says
      that no set bit remains after it, `box` that a square is owed at the current
      point, and `prev` is the previous nibble. */
  function Turn(l: Layout, k: nat, nibble: nat, last: bool, box: bool, prev: Option<nat>): Pass
    requires |l.vertex| == 8
  {
    var sq := if box then Square(l.side) else [];
    var node := nibble % 8;
    var v := l.vertex[node];
    if nibble >= 8 then
      var lead := if k == 0 then [MoveTo(l.lead.x, l.lead.y)] else [];
      Pass(sq + lead + [LineTo(v.x, v.y)], prev.Some? && node == prev.value % 8, v.x, false)
    else
      var pt := if prev == Some(0) && nibble == 0 then l.centre else v;
      if last then Pass(sq, false, pt.x, true)
      else Pass(sq + [MoveTo(pt.x, pt.y)], false, pt.x, false)
  }

  /** The command loop from pass `k` on; `x` is the register's value so far. */
  function Walk(l: Layout, k: nat, strokes: nat, box: bool, prev: Option<nat>, x: real): Trace
    requires |l.vertex| == 8 && k <= 8
    decreases 8 - k
  {
    if k == 8 then Trace([], x)
    else
      var s := Turn(l, k, Top(strokes), strokes * 16 == 0, box, prev);
      if s.stop then Trace(s.cmds, s.x)
      else
        var t := Walk(l, k + 1, strokes * 16, s.box, Some(Top(strokes)), s.x);
        Trace(s.cmds + t.cmds, t.x)
  }

  /** A code whose last nibble is a move carries a modifier instead. */
  predicate Modified(code: Word) {
    code % 16 <= 7
  }

  function GlyphFrame(p: Pen, code: Word): Frame {
    var low := code % 4;
    var scaleY := if Modified(code) && low == 1 then 0.5 else 1.0;
    var shiftY :=
      if Modified(code) && low == 2 then -p.yScale
      else if Modified(code) && low == 3 then -p.yScale / 2.0
      else 0.0;
    Frame(p.xOrigin, p.yOrigin, p.xScale, p.yScale, p.italic, scaleY, shiftY)
  }

  predicate HasDot(code: Word) {
    Modified(code) && (code / 4) % 2 == 1
  }

  /** The code with its modifier nibble cleared. */
  function Cleared(code: Word): Word {
    if Modified(code) then code - code % 16 else code
  }

  /** What a glyph's code selects before its command loop runs: the points it
      can visit, the centre dot that may open it, the command nibbles left once
      the modifier is cleared, and whether a box is owed from the start. */
  datatype Setup = Setup(layout: Layout, dot: seq<Cmd>, strokes: nat, box: bool)

  function GlyphSetup(p: Pen, code: Word): (s: Setup)
    ensures |s.layout.vertex| == 8
  {
    var f := GlyphFrame(p, code);
    var dot := if HasDot(code) then [MoveTo(DotPoint(f).x, DotPoint(f).y)] else [];
    Setup(GridLayout(f), dot, Cleared(code), HasDot(code))
  }

  /** The dot, then the command loop, starting with register value `x`. */
  function Render(s: Setup, x: real): Trace
    requires |s.layout.vertex| == 8
  {
    var t := Walk(s.layout, 0, s.strokes, s.box, None, x);
    Trace(s.dot + t.cmds, t.x)
  }

  /** One glyph at the pen's origin. */
  function DrawGlyph(p: Pen, code: Word): Trace {
    Render(GlyphSetup(p, code), p.x)
  }

  datatype Out = Out(pen: Pen, cmds: seq<Cmd>)

  /** A character with a glyph (its own or '?'): drawn with its underline
      when underlining is on, and the origin advances one pitch. */
  function Print(d: Dialect, p: Pen, code: Word): Out {
    var t := DrawGlyph(p, code);
    Out(p.(xOrigin := p.xOrigin + 3.0 * p.xScale, x := if d == AsWritten then t.x else p.x),
        t.cmds + Underline(p))
  }

  /** The underline under the current character cell, half a y-unit below the
      baseline and one pitch long, when underlining is on. */
  function Underline(p: Pen): seq<Cmd> {
    if p.underline
    then [MoveTo(p.xOrigin, p.yOrigin - p.yScale / 2.0), LineBy(3.0 * p.xScale, 0.0)]
    else []
  }

  /** One character: a control changes the pen, anything else is printed. */
  function Step(d: Dialect, p: Pen, c: char): Out {
    match ControlOf(c)
    case Some(k) => Out(ApplyControl(p, k), [])
    case None => Print(d, p, Code(d, c))
  }

  /** The main loop over the text. */
  function Run(d: Dialect, p: Pen, text: string): Out
    decreases |text|
  {
    if text == [] then Out(p, [])
    else
      var s := Step(d, p, text[0]);
      var r := Run(d, s.pen, text[1..]);
      Out(r.pen, s.cmds + r.cmds)
  }

  /** How many characters of a line have glyphs of their own. */
  function Printables(s: string): nat {
    if s == [] then 0 else Printables(s[..|s| - 1]) + (if Printable(s[|s| - 1]) then 1 else 0)
  }

  /** The widest line, in glyphs with rows of their own. */
  function Widest(text: string): nat {
    Max(Weights(Split(text), Printables))
  }

  /** The first pass over the text: the number of lines, and the widest line
      counted in characters that have glyphs of their own. One scan keeps the
      current line's count and the widest finished line. */
  method Measure(text: string) returns (lines: nat, widest: nat)
    ensures lines == |Split(text)|
    ensures widest == Widest(text)
  {
    var maxLen, len, newlines := 0, 0, 0;
    for i := 0 to |text|
      invariant Scanned(text[..i], Printables, newlines, len, maxLen)
    {
      if text[i] == '\n' {
        ScanBreak(text, i, Printables, newlines, len, maxLen);
        maxLen, len, newlines := if len > maxLen then len else maxLen, 0, newlines + 1;
      } else {
        ScanGrow(text, i, Printables, newlines, len, maxLen);
        PrintablesSnoc(Split(text[..i])[newlines], text[i]);
        len := len + if Printable(text[i]) then 1 else 0;
      }
    }
    assert text[..|text|] == text;
    ScanEnd(text, Printables, newlines, len, maxLen);
    widest := if len > maxLen then len else maxLen;
    lines := newlines + 1;
  }

  lemma PrintablesSnoc(s: string, c: char)
    ensures Printables(s + [c]) == Printables(s) + if Printable(c) then 1 else 0
  {
    assert (s + [c])[..|s|] == s;
  }

  /** The right edge of the ink of a `w`-glyph line starting at `xo`: each glyph is
      2 x-units wide, at a pitch of 3. */
  function InkRight(xo: real, xs: real, w: nat): real {
    xo + w as real * 3.0 * xs - xs
  }

  predicate Flag(align: nat, flag: nat)
    requires flag > 0
  {
    (align / flag) % 2 == 1
  }

  /** The first line's origin for the requested alignment. Centring takes
      precedence over right alignment, and top over middle. */
  function Align(x: real, y: real, xs: real, ys: real, align: nat, lines: nat, widest: nat): (o: Point)
    ensures Flag(align, CentreAlign) ==> (o.x + InkRight(o.x, xs, widest)) / 2.0 == x
    ensures !Flag(align, CentreAlign) && Flag(align, RightAlign) ==> InkRight(o.x, xs, widest) == x
    ensures !Flag(align, CentreAlign) && !Flag(align, RightAlign) ==> o.x == x
    ensures Flag(align, TopAlign) ==> o.y + 2.0 * ys == y
    ensures !Flag(align, TopAlign) && Flag(align, MidAlign) ==>
      (o.y + 2.0 * ys + o.y - 3.0 * ys * (lines as real - 1.0)) / 2.0 == y
    ensures !Flag(align, TopAlign) && !Flag(align, MidAlign) ==> o.y == y
  {
    var xo :=
      if Flag(align, CentreAlign) then x - (widest as real * 3.0 * xs - xs) / 2.0
      else if Flag(align, RightAlign) then x - (widest as real * 3.0 * xs - xs)
      else x;
    var yo :=
      if Flag(align, TopAlign) then y - 2.0 * ys
      else if Flag(align, MidAlign) then y - (ys - ys * 3.0 * (lines as real - 1.0) / 2.0)
      else y;
    Point(xo, yo)
  }

  /** The pen before the first character: the aligned origin, the scales for
      `size`, no slant, no underline, and the `x` register at the line start. */
  function StartPen(x: real, y: real, text: string, size: real, align: nat): Pen {
    PenAt(Align(x, y, size / 4.0, size / 2.0, align, |Split(text)|, Widest(text)), size)
  }

  /** A fresh pen at origin `o` for characters of `size`. */
  function PenAt(o: Point, size: real): Pen {
    Pen(o.x, o.y, size / 4.0, size / 2.0, 0.0, false, o.x)
  }

  /** `annotation_path`: nothing for empty text, otherwise the path of the whole
      text laid out from the aligned origin. */
  function AnnotationPath(d: Dialect, x: real, y: real, text: string, size: real, align: nat): (r: Option<seq<Cmd>>)
    ensures r.None? <==> text == []
  {
    if text == [] then None else Some(Run(d, StartPen(x, y, text, size, align), text).cmds)
  }

  // Position independence

  function MovePoint(pt: Point, dx: real, dy: real): Point {
    Point(pt.x + dx, pt.y + dy)
  }

  function MovePoints(ps: seq<Point>, dx: real, dy: real): (r: seq<Point>)
    ensures |r| == |ps|
    ensures forall i :: 0 <= i < |ps| ==> r[i] == MovePoint(ps[i], dx, dy)
  {
    if ps == [] then [] else [MovePoint(ps[0], dx, dy)] + MovePoints(ps[1..], dx, dy)
  }

  function MovedLayout(l: Layout, dx: real, dy: real): Layout {
    l.(vertex := MovePoints(l.vertex, dx, dy), centre := MovePoint(l.centre, dx, dy),
       lead := MovePoint(l.lead, dx, dy))
  }

  function MovedFrame(f: Frame, dx: real, dy: real): Frame {
    f.(xo := f.xo + dx, yo := f.yo + dy)
  }

  lemma TurnTranslate(l: Layout, k: nat, nibble: nat, last: bool, box: bool, prev: Option<nat>, dx: real, dy: real)
    requires |l.vertex| == 8
    ensures Turn(MovedLayout(l, dx, dy), k, nibble, last, box, prev).cmds == Translate(Turn(l, k, nibble, last, box, prev).cmds, dx, dy)
    ensures Turn(MovedLayout(l, dx, dy), k, nibble, last, box, prev).x == Turn(l, k, nibble, last, box, prev).x + dx
    ensures Turn(MovedLayout(l, dx, dy), k, nibble, last, box, prev).box == Turn(l, k, nibble, last, box, prev).box
    ensures Turn(MovedLayout(l, dx, dy), k, nibble, last, box, prev).stop == Turn(l, k, nibble, last, box, prev).stop
  {
    var sq := if box then Square(l.side) else [];
    TranslateRelative(sq, dx, dy);
    if nibble >= 8 {
      DrawTranslate(l, k, nibble, last, box, prev, dx, dy);
    } else {
      MoveTranslate(l, k, nibble, last, box, prev, dx, dy);
    }
  }

  lemma DrawTranslate(l: Layout, k: nat, nibble: nat, last: bool, box: bool, prev: Option<nat>, dx: real, dy: real)
    requires |l.vertex| == 8 && nibble >= 8
    requires Translate(if box then Square(l.side) else [], dx, dy) == if box then Square(l.side) else []
    ensures Turn(MovedLayout(l, dx, dy), k, nibble, last, box, prev).cmds == Translate(Turn(l, k, nibble, last, box, prev).cmds, dx, dy)
  {
    var m := MovedLayout(l, dx, dy);
    var v := l.vertex[nibble % 8];
    var w := MovePoint(v, dx, dy);
    var sq := if box then Square(l.side) else [];
    var lead := if k == 0 then [MoveTo(l.lead.x, l.lead.y)] else [];
    var moved := if k == 0 then [MoveTo(m.lead.x, m.lead.y)] else [];
    TurnDraw(l, k, nibble, last, box, prev, sq, lead, v);
    assert m.vertex[nibble % 8] == w;
    TurnDraw(m, k, nibble, last, box, prev, sq, moved, w);
    LeadTranslate(l.lead, k, dx, dy);
    TranslateThree(sq, lead, moved, LineTo(v.x, v.y), LineTo(w.x, w.y), dx, dy);
  }

  /** The commands of a drawing pass, named piece by piece. */
  lemma TurnDraw(l: Layout, k: nat, nibble: nat, last: bool, box: bool, prev: Option<nat>, sq: seq<Cmd>, lead: seq<Cmd>, v: Point)
    requires |l.vertex| == 8 && nibble >= 8
    requires sq == (if box then Square(l.side) else [])
    requires lead == (if k == 0 then [MoveTo(l.lead.x, l.lead.y)] else [])
    requires v == l.vertex[nibble % 8]
    ensures Turn(l, k, nibble, last, box, prev).cmds == sq + lead + [LineTo(v.x, v.y)]
  {
  }

  /** The lead-in move of the first pass moves with the layout. */
  lemma LeadTranslate(lead: Point, k: nat, dx: real, dy: real)
    ensures Translate(if k == 0 then [MoveTo(lead.x, lead.y)] else [], dx, dy)
         == if k == 0 then [MoveTo(lead.x + dx, lead.y + dy)] else []
  {
    if k == 0 {
      TranslateOne(MoveTo(lead.x, lead.y), dx, dy);
    }
  }

  lemma MoveTranslate(l: Layout, k: nat, nibble: nat, last: bool, box: bool, prev: Option<nat>, dx: real, dy: real)
    requires |l.vertex| == 8 && nibble < 8
    requires Translate(if box then Square(l.side) else [], dx, dy) == if box then Square(l.side) else []
    ensures Turn(MovedLayout(l, dx, dy), k, nibble, last, box, prev).cmds == Translate(Turn(l, k, nibble, last, box, prev).cmds, dx, dy)
  {
    var m := MovedLayout(l, dx, dy);
    var sq := if box then Square(l.side) else [];
    var pt := if prev == Some(0) && nibble == 0 then l.centre else l.vertex[nibble % 8];
    var w := MovePoint(pt, dx, dy);
    TurnMove(l, k, nibble, last, box, prev, sq, pt);
    assert (if prev == Some(0) && nibble == 0 then m.centre else m.vertex[nibble % 8]) == w;
    TurnMove(m, k, nibble, last, box, prev, sq, w);
    if !last {
      TranslateThree(sq, [], [], MoveTo(pt.x, pt.y), MoveTo(w.x, w.y), dx, dy);
    }
  }

  /** The commands of a moving pass, named piece by piece. */
  lemma TurnMove(l: Layout, k: nat, nibble: nat, last: bool, box: bool, prev: Option<nat>, sq: seq<Cmd>, pt: Point)
    requires |l.vertex| == 8 && nibble < 8
    requires sq == (if box then Square(l.side) else [])
    requires pt == if prev == Some(0) && nibble == 0 then l.centre else l.vertex[nibble % 8]
    ensures Turn(l, k, nibble, last, box, prev).cmds == if last then sq else sq + [] + [MoveTo(pt.x, pt.y)]
  {
    assert sq + [] == sq;
  }

  /** Relative commands, then at most one more command, then a point. */
  lemma TranslateThree(sq: seq<Cmd>, lead: seq<Cmd>, moved: seq<Cmd>, c: Cmd, c': Cmd, dx: real, dy: real)
    requires Translate(sq, dx, dy) == sq
    requires Translate(lead, dx, dy) == moved
    requires TranslateCmd(c, dx, dy) == c'
    ensures Translate(sq + lead + [c], dx, dy) == sq + moved + [c']
  {
    TranslateOne(c, dx, dy);
    TranslateAppend(sq + lead, [c], dx, dy);
    TranslateAppend(sq, lead, dx, dy);
  }

  /** Moving the layout moves every absolute point of a glyph, and the register,
      by the same amount. */
  lemma {:induction false} WalkTranslate(l: Layout, m: Layout, k: nat, strokes: nat, box: bool, prev: Option<nat>, x: real, dx: real, dy: real)
    requires |l.vertex| == 8 && k <= 8 && m == MovedLayout(l, dx, dy)
    ensures MovedTrace(Walk(l, k, strokes, box, prev, x), Walk(m, k, strokes, box, prev, x + dx), dx, dy)
    decreases 8 - k
  {
    if k < 8 {
      var s := Turn(l, k, Top(strokes), strokes * 16 == 0, box, prev);
      if !s.stop {
        WalkTranslate(l, m, k + 1, strokes * 16, s.box, Some(Top(strokes)), s.x, dx, dy);
      }
      WalkCase(l, m, k, strokes, box, prev, x, dx, dy, s);
    } else {
      TranslateEmpty(dx, dy);
    }
  }

  lemma TranslateEmpty(dx: real, dy: real)
    ensures Translate([], dx, dy) == []
  {
  }

  /** `tm` is `t` moved by (dx, dy): its commands translated and its register
      shifted. */
  predicate MovedTrace(t: Trace, tm: Trace, dx: real, dy: real) {
    tm.cmds == Translate(t.cmds, dx, dy) && tm.x == t.x + dx
  }

  /** One step of the induction: a pass that stops, or one followed by a rest
      that moves along with the layout. */
  lemma WalkCase(l: Layout, m: Layout, k: nat, strokes: nat, box: bool, prev: Option<nat>, x: real, dx: real, dy: real, s: Pass)
    requires |l.vertex| == 8 && k < 8 && m == MovedLayout(l, dx, dy)
    requires s == Turn(l, k, Top(strokes), strokes * 16 == 0, box, prev)
    requires !s.stop ==> MovedTrace(Walk(l, k + 1, strokes * 16, s.box, Some(Top(strokes)), s.x),
                                    Walk(m, k + 1, strokes * 16, s.box, Some(Top(strokes)), s.x + dx), dx, dy)
    ensures MovedTrace(Walk(l, k, strokes, box, prev, x), Walk(m, k, strokes, box, prev, x + dx), dx, dy)
  {
    if s.stop {
      StopTranslate(l, k, strokes, box, prev, x, dx, dy);
    } else {
      var t := Walk(l, k + 1, strokes * 16, s.box, Some(Top(strokes)), s.x);
      var tm := Walk(m, k + 1, strokes * 16, s.box, Some(Top(strokes)), s.x + dx);
      PassTranslate(l, k, strokes, box, prev, x, dx, dy, s, t, tm);
    }
  }

  /** The walk ends with a pass that moves along with the layout. */
  lemma StopTranslate(l: Layout, k: nat, strokes: nat, box: bool, prev: Option<nat>, x: real, dx: real, dy: real)
    requires |l.vertex| == 8 && k < 8
    requires Turn(l, k, Top(strokes), strokes * 16 == 0, box, prev).stop
    ensures Walk(MovedLayout(l, dx, dy), k, strokes, box, prev, x + dx).cmds == Translate(Walk(l, k, strokes, box, prev, x).cmds, dx, dy)
    ensures Walk(MovedLayout(l, dx, dy), k, strokes, box, prev, x + dx).x == Walk(l, k, strokes, box, prev, x).x + dx
  {
    TurnTranslate(l, k, Top(strokes), strokes * 16 == 0, box, prev, dx, dy);
  }

  /** One pass that moves along with the layout, followed by a rest that does. */
  lemma PassTranslate(l: Layout, k: nat, strokes: nat, box: bool, prev: Option<nat>, x: real, dx: real, dy: real,
                      s: Pass, t: Trace, tm: Trace)
    requires |l.vertex| == 8 && k < 8
    requires s == Turn(l, k, Top(strokes), strokes * 16 == 0, box, prev) && !s.stop
    requires t == Walk(l, k + 1, strokes * 16, s.box, Some(Top(strokes)), s.x)
    requires tm == Walk(MovedLayout(l, dx, dy), k + 1, strokes * 16, s.box, Some(Top(strokes)), s.x + dx)
    requires tm.cmds == Translate(t.cmds, dx, dy) && tm.x == t.x + dx
    ensures Walk(MovedLayout(l, dx, dy), k, strokes, box, prev, x + dx).cmds == Translate(Walk(l, k, strokes, box, prev, x).cmds, dx, dy)
    ensures Walk(MovedLayout(l, dx, dy), k, strokes, box, prev, x + dx).x == Walk(l, k, strokes, box, prev, x).x + dx
  {
    var m := MovedLayout(l, dx, dy);
    var sm := Turn(m, k, Top(strokes), strokes * 16 == 0, box, prev);
    TurnTranslate(l, k, Top(strokes), strokes * 16 == 0, box, prev, dx, dy);
    WalkUnfold(l, k, strokes, box, prev, x, s, t);
    WalkUnfold(m, k, strokes, box, prev, x + dx, sm, tm);
    TranslateAppend(s.cmds, t.cmds, dx, dy);
  }

  /** A pass that does not end the loop is followed by the rest of the walk. */
  lemma WalkUnfold(l: Layout, k: nat, strokes: nat, box: bool, prev: Option<nat>, x: real, s: Pass, t: Trace)
    requires |l.vertex| == 8 && k < 8
    requires s == Turn(l, k, Top(strokes), strokes * 16 == 0, box, prev) && !s.stop
    requires t == Walk(l, k + 1, strokes * 16, s.box, Some(Top(strokes)), s.x)
    ensures Walk(l, k, strokes, box, prev, x) == Trace(s.cmds + t.cmds, t.x)
  {
  }

  lemma VertexMoved(f: Frame, node: nat, dx: real, dy: real)
    requires node < 8
    ensures Vertex(MovedFrame(f, dx, dy), node) == MovePoint(Vertex(f, node), dx, dy)
  {
    var yOrd := GridY[node] as real * f.ys * f.scaleY + f.shiftY;
    var a := GridX[node] as real * f.xs + yOrd * f.italic;
    assert Vertex(f, node).x == f.xo + a;
    assert Vertex(MovedFrame(f, dx, dy), node).x == f.xo + dx + a;
  }

  lemma PointsMoved(f: Frame, dx: real, dy: real)
    ensures Centre(MovedFrame(f, dx, dy)) == MovePoint(Centre(f), dx, dy)
    ensures LeadPoint(MovedFrame(f, dx, dy)) == MovePoint(LeadPoint(f), dx, dy)
    ensures DotPoint(MovedFrame(f, dx, dy)) == MovePoint(DotPoint(f), dx, dy)
  {
    var m := (f.ys + f.xs / 2.0) * f.italic;
    assert DotPoint(f).x == f.xo + f.xs + m;
    assert DotPoint(MovedFrame(f, dx, dy)).x == f.xo + dx + f.xs + m;
  }

  lemma LayoutMoved(f: Frame, dx: real, dy: real)
    ensures GridLayout(MovedFrame(f, dx, dy)) == MovedLayout(GridLayout(f), dx, dy)
  {
    var a := GridLayout(MovedFrame(f, dx, dy));
    var b := MovedLayout(GridLayout(f), dx, dy);
    forall node | 0 <= node < 8
      ensures a.vertex[node] == b.vertex[node]
    {
      VertexMoved(f, node, dx, dy);
    }
    PointsMoved(f, dx, dy);
  }

  function MovedSetup(s: Setup, dx: real, dy: real): Setup {
    s.(layout := MovedLayout(s.layout, dx, dy), dot := Translate(s.dot, dx, dy))
  }

  lemma SetupMoved(p: Pen, code: Word, dx: real, dy: real)
    ensures GlyphSetup(p.Moved(dx, dy), code) == MovedSetup(GlyphSetup(p, code), dx, dy)
  {
    var f := GlyphFrame(p, code);
    assert GlyphFrame(p.Moved(dx, dy), code) == MovedFrame(f, dx, dy);
    LayoutMoved(f, dx, dy);
    PointsMoved(f, dx, dy);
    TranslateOne(MoveTo(DotPoint(f).x, DotPoint(f).y), dx, dy);
  }

  lemma RenderTranslate(s: Setup, x: real, dx: real, dy: real)
    requires |s.layout.vertex| == 8
    ensures Render(MovedSetup(s, dx, dy), x + dx).cmds == Translate(Render(s, x).cmds, dx, dy)
    ensures Render(MovedSetup(s, dx, dy), x + dx).x == Render(s, x).x + dx
  {
    var w := Walk(s.layout, 0, s.strokes, s.box, None, x);
    WalkTranslate(s.layout, MovedLayout(s.layout, dx, dy), 0, s.strokes, s.box, None, x, dx, dy);
    TranslateAppend(s.dot, w.cmds, dx, dy);
  }

  lemma GlyphTranslate(p: Pen, code: Word, dx: real, dy: real)
    ensures DrawGlyph(p.Moved(dx, dy), code).cmds == Translate(DrawGlyph(p, code).cmds, dx, dy)
    ensures DrawGlyph(p.Moved(dx, dy), code).x == DrawGlyph(p, code).x + dx
  {
    SetupMoved(p, code, dx, dy);
    RenderTranslate(GlyphSetup(p, code), p.x, dx, dy);
  }

  lemma PrintTranslate(d: Dialect, p: Pen, code: Word, dx: real, dy: real)
    ensures Print(d, p.Moved(dx, dy), code).pen == Print(d, p, code).pen.Moved(dx, dy)
    ensures Print(d, p.Moved(dx, dy), code).cmds == Translate(Print(d, p, code).cmds, dx, dy)
  {
    var a := DrawGlyph(p, code);
    GlyphTranslate(p, code, dx, dy);
    UnderlineTranslate(p, dx, dy);
    PrintOf(d, p, code, a);
    PrintOf(d, p.Moved(dx, dy), code, DrawGlyph(p.Moved(dx, dy), code));
    TranslateAppend(a.cmds, Underline(p), dx, dy);
  }

  /** A printed character, given its glyph's trace. */
  lemma PrintOf(d: Dialect, p: Pen, code: Word, t: Trace)
    requires t == DrawGlyph(p, code)
    ensures Print(d, p, code).pen == p.(xOrigin := p.xOrigin + 3.0 * p.xScale, x := if d == AsWritten then t.x else p.x)
    ensures Print(d, p, code).cmds == t.cmds + Underline(p)
  {
  }

  lemma UnderlineTranslate(p: Pen, dx: real, dy: real)
    ensures Underline(p.Moved(dx, dy)) == Translate(Underline(p), dx, dy)
  {
    var under := MoveTo(p.xOrigin, p.yOrigin - p.yScale / 2.0);
    var along := LineBy(3.0 * p.xScale, 0.0);
    if p.underline {
      TranslateOne(under, dx, dy);
      TranslateOne(along, dx, dy);
      TranslateAppend([under], [along], dx, dy);
      assert [under] + [along] == Underline(p);
    }
  }

  lemma StepTranslate(d: Dialect, p: Pen, c: char, dx: real, dy: real)
    ensures Step(d, p.Moved(dx, dy), c).pen == Step(d, p, c).pen.Moved(dx, dy)
    ensures Step(d, p.Moved(dx, dy), c).cmds == Translate(Step(d, p, c).cmds, dx, dy)
  {
    if ControlOf(c).None? {
      PrintTranslate(d, p, Code(d, c), dx, dy);
    }
  }

  lemma {:induction false} RunTranslate(d: Dialect, p: Pen, text: string, dx: real, dy: real)
    ensures Run(d, p.Moved(dx, dy), text).pen == Run(d, p, text).pen.Moved(dx, dy)
    ensures Run(d, p.Moved(dx, dy), text).cmds == Translate(Run(d, p, text).cmds, dx, dy)
    decreases |text|
  {
    if text != [] {
      var s := Step(d, p, text[0]);
      StepTranslate(d, p, text[0], dx, dy);
      RunTranslate(d, s.pen, text[1..], dx, dy);
      TranslateAppend(s.cmds, Run(d, s.pen, text[1..]).cmds, dx, dy);
    }
  }

  lemma AlignMoved(x: real, y: real, xs: real, ys: real, align: nat, lines: nat, widest: nat, dx: real, dy: real)
    ensures Align(x + dx, y + dy, xs, ys, align, lines, widest) == MovePoint(Align(x, y, xs, ys, align, lines, widest), dx, dy)
  {
    var w := widest as real * 3.0 * xs - xs;
    var h := ys - ys * 3.0 * (lines as real - 1.0) / 2.0;
    assert Align(x, y, xs, ys, align, lines, widest).x ==
      if Flag(align, CentreAlign) then x - w / 2.0 else if Flag(align, RightAlign) then x - w else x;
    assert Align(x, y, xs, ys, align, lines, widest).y ==
      if Flag(align, TopAlign) then y - 2.0 * ys else if Flag(align, MidAlign) then y - h else y;
  }

  lemma StartMoved(x: real, y: real, text: string, size: real, align: nat, dx: real, dy: real)
    ensures StartPen(x + dx, y + dy, text, size, align) == StartPen(x, y, text, size, align).Moved(dx, dy)
  {
    AlignMoved(x, y, size / 4.0, size / 2.0, align, |Split(text)|, Widest(text), dx, dy);
    PenAtMoved(Align(x, y, size / 4.0, size / 2.0, align, |Split(text)|, Widest(text)), size, dx, dy);
  }

  lemma PenAtMoved(o: Point, size: real, dx: real, dy: real)
    ensures PenAt(MovePoint(o, dx, dy), size) == PenAt(o, size).Moved(dx, dy)
  {
  }

  /** Annotating at a moved anchor moves the whole path and changes nothing else. */
  lemma PathTranslate(d: Dialect, x: real, y: real, text: string, size: real, align: nat, dx: real, dy: real)
    requires text != []
    ensures AnnotationPath(d, x + dx, y + dy, text, size, align).value
         == Translate(AnnotationPath(d, x, y, text, size, align).value, dx, dy)
  {
    StartMoved(x, y, text, size, align, dx, dy);
    RunTranslate(d, StartPen(x, y, text, size, align), text, dx, dy);
  }
}
