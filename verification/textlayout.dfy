/** The text helpers of the round-dial sample: measuring multi-line text, and
    the pens that lay out plotter-font and segment-font glyphs. */
module TextLayout {
  import opened Wrappers
  import opened Lines
  import opened Shapes
  import Plotter
  import NSegment
  import NSegmentProps

  function Length(line: string): nat {
    |line|
  }

  /** `get_multi_line_str_info`: the number of lines and the longest line's
      length in characters, in one scan. */
  method MultiLineStrInfo(s: string) returns (lines: nat, maxlen: nat)
    ensures lines == |Split(s)| == Newlines(s) + 1
    ensures maxlen == Max(Weights(Split(s), Length))
    ensures maxlen <= |s|
    ensures s == [] ==> lines == 1 && maxlen == 0
  {
    var len, newlines := 0, 0;
    maxlen := 0;
    for i := 0 to |s|
      invariant Scanned(s[..i], Length, newlines, len, maxlen)
    {
      if s[i] == '\n' {
        ScanBreak(s, i, Length, newlines, len, maxlen);
        maxlen, len, newlines := if len > maxlen then len else maxlen, 0, newlines + 1;
      } else {
        ScanGrow(s, i, Length, newlines, len, maxlen);
        len := len + 1;
      }
    }
    assert s[..|s|] == s;
    ScanEnd(s, Length, newlines, len, maxlen);
    maxlen := if len > maxlen then len else maxlen;
    lines := newlines + 1;
    SplitCount(s);
    LongestBound(s);
  }

  lemma LongestBound(s: string)
    ensures Max(Weights(Split(s), Length)) <= |s|
  {
    JoinSplit(s);
    JoinLonger(Split(s));
  }

  /** One glyph placed by a text helper: the character whose shape
      `add_shape` draws, and where it draws it. */
  datatype Glyph = Glyph(c: char, x: real, y: real)

  /** The pen of `add_text`: its position and the glyphs placed so far. */
  datatype Pen = Pen(x: real, y: real, glyphs: seq<Glyph>)

  /** Plotter glyph units per drawing unit for a given text height. */
  function PlotterScale(height: real): real {
    height / Plotter.StdHeight
  }

  /** The line pitch of `add_text` in glyph units: a character's height plus one. */
  const LinePitch: real := Plotter.Size + 1.0

  /** A character below code 7 is a gap of that many units; a newline starts
      the next line; anything else is a glyph one standard width wide. */
  function TextStep(orgX: real, scale: real, slant: real, p: Pen, c: char): Pen {
    if (c as int) < 7 then p.(x := p.x + scale * (c as int) as real)
    else if c == '\n' then p.(x := orgX, y := p.y - scale * LinePitch)
    else Pen(p.x + scale * Plotter.StdWidth, p.y, p.glyphs + [Glyph(c, p.x, p.y)])
  }

  /** The loop of `add_text` over the characters in order. */
  function TextRun(orgX: real, scale: real, slant: real, p: Pen, s: string): Pen {
    if s == [] then p else TextStep(orgX, scale, slant, TextRun(orgX, scale, slant, p, s[..|s| - 1]), s[|s| - 1])
  }

  /** `add_text`: the text drawn in the plotter font from (x, y), `height` tall;
      each glyph's shape is `Plotter.CharShape` of its character at `slant`. */
  function AddText(x: real, y: real, s: string, height: real, slant: real): Pen {
    TextRun(x, PlotterScale(height), slant, Pen(x, y, []), s)
  }

  /** How far a character moves the pen along its line, in glyph units. */
  function Advance(c: char): real {
    if (c as int) < 7 then (c as int) as real else Plotter.StdWidth
  }

  function LineAdvance(line: string): real {
    if line == [] then 0.0 else LineAdvance(line[..|line| - 1]) + Advance(line[|line| - 1])
  }

  function LastLine(s: string): string {
    Split(s)[|Split(s)| - 1]
  }

  predicate Drawn(c: char) {
    (c as int) >= 7 && c != '\n'
  }

  function DrawnCount(s: string): nat {
    if s == [] then 0 else DrawnCount(s[..|s| - 1]) + (if Drawn(s[|s| - 1]) then 1 else 0)
  }

  /** The last line after one more character. */
  lemma Snoc(s: string)
    requires s != []
    ensures var init, c := s[..|s| - 1], s[|s| - 1];
      LastLine(s) == if c == '\n' then [] else LastLine(init) + [c]
  {
  }

  lemma Scaled(k: real, sum: real, a: real, b: real)
    requires sum == a + b
    ensures k * sum == k * a + k * b
  {
  }

  /** How far along its line, in drawing units, the characters of `line`
      move the pen. */
  function Offset(scale: real, line: string): real {
    if line == [] then 0.0 else Offset(scale, line[..|line| - 1]) + scale * Advance(line[|line| - 1])
  }

  /** How far down, in drawing units, the newlines of `s` move the pen. */
  function Drop(scale: real, s: string): real {
    if s == [] then 0.0 else Drop(scale, s[..|s| - 1]) + (if s[|s| - 1] == '\n' then scale * LinePitch else 0.0)
  }

  lemma {:induction false} OffsetScales(scale: real, line: string)
    ensures Offset(scale, line) == scale * LineAdvance(line)
  {
    if line != [] {
      var init := line[..|line| - 1];
      OffsetScales(scale, init);
      Scaled(scale, LineAdvance(line), LineAdvance(init), Advance(line[|line| - 1]));
    }
  }

  lemma {:induction false} DropScales(scale: real, s: string)
    ensures Drop(scale, s) == scale * LinePitch * Newlines(s) as real
  {
    if s != [] {
      var init := s[..|s| - 1];
      DropScales(scale, init);
      Scaled(scale * LinePitch, Newlines(s) as real, Newlines(init) as real,
             if s[|s| - 1] == '\n' then 1.0 else 0.0);
    }
  }

  /** After any text the pen of `add_text` stands along its line by the
      advances of the last line's characters ... */
  lemma {:induction false} TextPenX(x: real, y: real, scale: real, slant: real, s: string)
    ensures TextRun(x, scale, slant, Pen(x, y, []), s).x == x + Offset(scale, LastLine(s))
  {
    if s != [] {
      var init, c := s[..|s| - 1], s[|s| - 1];
      TextPenX(x, y, scale, slant, init);
      OffsetSnoc(scale, s);
      RunStepX(x, scale, slant, Pen(x, y, []), s);
    }
  }

  /** A newline returns the pen to the margin; anything else moves it along
      by the character's advance. */
  lemma RunStepX(orgX: real, scale: real, slant: real, p: Pen, s: string)
    requires s != []
    ensures var init, c := s[..|s| - 1], s[|s| - 1];
      TextRun(orgX, scale, slant, p, s).x
        == if c == '\n' then orgX else TextRun(orgX, scale, slant, p, init).x + scale * Advance(c)
  {
  }

  /** A newline starts a line with no offset; anything else adds its advance
      to the last line's. */
  lemma OffsetSnoc(scale: real, s: string)
    requires s != []
    ensures var init, c := s[..|s| - 1], s[|s| - 1];
      Offset(scale, LastLine(s)) == if c == '\n' then 0.0 else Offset(scale, LastLine(init)) + scale * Advance(c)
  {
    Snoc(s);
    if s[|s| - 1] != '\n' {
      var line := LastLine(s);
      assert line[..|line| - 1] == LastLine(s[..|s| - 1]);
    }
  }

  /** ... one line pitch lower per newline ... */
  lemma {:induction false} TextPenY(x: real, y: real, scale: real, slant: real, s: string)
    ensures TextRun(x, scale, slant, Pen(x, y, []), s).y == y - Drop(scale, s)
  {
    if s != [] {
      TextPenY(x, y, scale, slant, s[..|s| - 1]);
    }
  }

  /** ... and has placed one glyph per drawn character. */
  lemma {:induction false} TextPenCount(x: real, y: real, scale: real, slant: real, s: string)
    ensures |TextRun(x, scale, slant, Pen(x, y, []), s).glyphs| == DrawnCount(s)
  {
    if s != [] {
      TextPenCount(x, y, scale, slant, s[..|s| - 1]);
    }
  }

  /** The node lists `add_shape` receives for the plotter-font glyphs: each
      character's strokes at the slant; a character outside the table draws
      nothing, and every list starts with a move. */
  function PlotterShapes(gs: seq<Glyph>, slant: real): (r: seq<seq<Node>>)
    ensures |r| == |gs|
    ensures forall i :: 0 <= i < |gs| ==> WellFormed(r[i])
    ensures forall i :: 0 <= i < |gs| ==> (r[i] != [] <==> 0x20 <= gs[i].c as int <= 0x89)
  {
    PlotterShapesAll(gs, slant);
    seq(|gs|, i requires 0 <= i < |gs| => Plotter.CharShape(gs[i].c, slant))
  }

  lemma PlotterShapesAll(gs: seq<Glyph>, slant: real)
    ensures forall i :: 0 <= i < |gs| ==> WellFormed(Plotter.CharShape(gs[i].c, slant))
    ensures forall i :: 0 <= i < |gs| ==> (Plotter.CharShape(gs[i].c, slant) != [] <==> 0x20 <= gs[i].c as int <= 0x89)
  {
    forall i | 0 <= i < |gs|
      ensures WellFormed(Plotter.CharShape(gs[i].c, slant))
      ensures Plotter.CharShape(gs[i].c, slant) != [] <==> 0x20 <= gs[i].c as int <= 0x89
    {
      Plotter.ShapeWellFormed(gs[i].c, slant);
      Plotter.ShapeIffInTable(gs[i].c, slant);
    }
  }

  /** The glyphs placed for a prefix stay first, unchanged. */
  lemma {:induction false} TextPrefix(x: real, y: real, scale: real, slant: real, s: string, k: nat)
    requires k <= |s|
    ensures var g := TextRun(x, scale, slant, Pen(x, y, []), s[..k]).glyphs;
      var h := TextRun(x, scale, slant, Pen(x, y, []), s).glyphs;
      |g| <= |h| && h[..|g|] == g
    decreases |s|
  {
    if k < |s| {
      var init := s[..|s| - 1];
      assert init[..k] == s[..k];
      TextPrefix(x, y, scale, slant, init, k);
    } else {
      assert s[..k] == s;
    }
  }

  /** Each drawn character gets a glyph, placed at the pen
      position the text before it leads to. */
  lemma TextGlyph(x: real, y: real, scale: real, slant: real, s: string, i: nat)
    requires i < |s| && Drawn(s[i])
    ensures var g := TextRun(x, scale, slant, Pen(x, y, []), s).glyphs;
      && DrawnCount(s[..i]) < |g|
      && g[DrawnCount(s[..i])]
         == Glyph(s[i],
                  x + Offset(scale, LastLine(s[..i])),
                  y - Drop(scale, s[..i]))
  {
    var p := TextRun(x, scale, slant, Pen(x, y, []), s[..i]);
    TextPenX(x, y, scale, slant, s[..i]);
    TextPenY(x, y, scale, slant, s[..i]);
    TextPenCount(x, y, scale, slant, s[..i]);
    assert s[..i + 1][..i] == s[..i];
    var q := TextRun(x, scale, slant, Pen(x, y, []), s[..i + 1]);
    assert q.glyphs == p.glyphs + [Glyph(s[i], p.x, p.y)];
    TextPrefix(x, y, scale, slant, s, i + 1);
  }

  /** The pen step of `add_seg_text`: a glyph width plus three gaps and two
      thicknesses. */
  function SegPitch(f: NSegment.Font): real {
    f.width + f.gap * 3.0 + f.thick * 2.0
  }

  /** The pen of the segment-font loop: a glyph at x, then one step right. */
  function SegGlyphs(s: string, x: real, y: real, step: real): seq<Glyph> {
    if s == [] then [] else [Glyph(s[0], x, y)] + SegGlyphs(s[1..], x + step, y, step)
  }

  /** Slot i of a row that starts at x0 and steps by step. */
  function At(x0: real, i: int, step: real): real {
    x0 + i as real * step
  }

  /** Where a row of n steps centred on x starts. */
  function RowStart(x: real, n: nat, step: real): real {
    x - n as real * step / 2.0
  }

  lemma {:induction false} SegGlyphsAt(s: string, x: real, y: real, step: real)
    ensures |SegGlyphs(s, x, y, step)| == |s|
    ensures forall i :: 0 <= i < |s| ==> SegGlyphs(s, x, y, step)[i] == Glyph(s[i], At(x, i, step), y)
  {
    if s != [] {
      SegGlyphsAt(s[1..], x + step, y, step);
      var r := SegGlyphs(s, x, y, step);
      forall i | 0 < i < |s|
        ensures r[i] == Glyph(s[i], At(x, i, step), y)
      {
        assert r[i] == SegGlyphs(s[1..], x + step, y, step)[i - 1];
        assert s[i] == s[1..][i - 1];
        Scaled(step, i as real, (i - 1) as real, 1.0);
      }
    }
  }

  /** Glyphs at x0, x0 + step, x0 + 2 step, ... stand one step apart ... */
  lemma Evenly(g: seq<Glyph>, x0: real, step: real)
    requires forall i :: 0 <= i < |g| ==> g[i].x == At(x0, i, step)
    ensures forall i :: 0 < i < |g| ==> g[i].x == g[i - 1].x + step
  {
    forall i | 0 < i < |g|
      ensures g[i].x == g[i - 1].x + step
    {
      Scaled(step, i as real, (i - 1) as real, 1.0);
    }
  }

  /** ... and, started half their n steps left of x, are centred on x. */
  lemma Centred(g: seq<Glyph>, x: real, step: real)
    requires forall i :: 0 <= i < |g| ==> g[i].x == At(RowStart(x, |g|, step), i, step)
    ensures |g| > 0 ==> x - g[0].x == (g[|g| - 1].x + step) - x
  {
    if |g| > 0 {
      var n, k := |g| as real, (|g| - 1) as real;
      assert g[0].x == At(RowStart(x, |g|, step), 0, step);
      assert g[|g| - 1].x == At(RowStart(x, |g|, step), |g| - 1, step);
      Scaled(step, n, k, 1.0);
    }
  }

  /** A row of glyphs centred on x: the pen starts half the row's length to
      the left, and the first glyph stands as far left of x as the pen ends
      right of it. */
  function SegRow(s: string, x: real, y: real, step: real): (g: seq<Glyph>)
    ensures |g| == |s|
    ensures forall i :: 0 <= i < |s| ==> g[i].c == s[i] && g[i].y == y
    ensures forall i :: 0 < i < |s| ==> g[i].x == g[i - 1].x + step
    ensures |s| > 0 ==> x - g[0].x == (g[|s| - 1].x + step) - x
  {
    var x0 := RowStart(x, |s|, step);
    SegGlyphsAt(s, x0, y, step);
    var g := SegGlyphs(s, x0, y, step);
    Evenly(g, x0, step);
    Centred(g, x, step);
    g
  }

  /** `add_seg_text`: the text drawn in a segment font centred on (x, y): one
      glyph per character, in order, one pitch apart along a baseline half a
      character below y. */
  function AddSegText(f: NSegment.Font, x: real, y: real, s: string, scale: real): (g: seq<Glyph>)
    ensures |g| == |s|
    ensures forall i :: 0 <= i < |s| ==> g[i].c == s[i] && g[i].y == y - scale * f.height / 2.0
    ensures forall i :: 0 < i < |s| ==> g[i].x == g[i - 1].x + scale * SegPitch(f)
    ensures |s| > 0 ==> x - g[0].x == (g[|s| - 1].x + scale * SegPitch(f)) - x
  {
    SegRow(s, x, y - scale * f.height / 2.0, scale * SegPitch(f))
  }

  /** The node lists `add_shape` receives for the glyphs: each character's
      segments at the origin, with no custom segment names (`custom=None`).
      The first character that raises ends the loop with its exception: on a
      16-, 14- or 7-segment font a character up to 0x0F raises TypeError, and
      ZeroDivisionError comes from a character that lights a segment of a
      zero-height font, or a diagonal whose thickness correction is singular. */
  function SegShapes(f: NSegment.Font, diag: NSegment.Correction, gs: seq<Glyph>): (r: Result<seq<seq<Node>>, NSegment.Fault>)
    ensures r.Ok? <==> forall i :: 0 <= i < |gs| ==> NSegment.CharSegments(f, diag, gs[i].c, None, 0.0, 0.0).Ok?
    ensures r.Ok? ==> |r.value| == |gs|
    ensures r.Ok? ==> forall i :: 0 <= i < |gs| ==>
              Ok(r.value[i]) == NSegment.CharSegments(f, diag, gs[i].c, None, 0.0, 0.0) && WellFormed(r.value[i])
    ensures r.Err? ==> exists i :: 0 <= i < |gs| && NSegment.CharSegments(f, diag, gs[i].c, None, 0.0, 0.0) == Err(r.error)
                          && forall j :: 0 <= j < i ==> NSegment.CharSegments(f, diag, gs[j].c, None, 0.0, 0.0).Ok?
  {
    var rs := seq(|gs|, i requires 0 <= i < |gs| => NSegment.CharSegments(f, diag, gs[i].c, None, 0.0, 0.0));
    assert forall i :: 0 <= i < |gs| ==> rs[i] == NSegment.CharSegments(f, diag, gs[i].c, None, 0.0, 0.0);
    ShapesWellFormed(f, diag, gs, rs);
    Collect(rs)
  }

  /** Every shape the font returns for a glyph is well formed. */
  lemma ShapesWellFormed(f: NSegment.Font, diag: NSegment.Correction, gs: seq<Glyph>, rs: seq<Result<seq<Node>, NSegment.Fault>>)
    requires |rs| == |gs|
    requires forall i :: 0 <= i < |gs| ==> rs[i] == NSegment.CharSegments(f, diag, gs[i].c, None, 0.0, 0.0)
    ensures forall i :: 0 <= i < |rs| && rs[i].Ok? ==> WellFormed(rs[i].value)
  {
    forall i | 0 <= i < |rs| && rs[i].Ok? ensures WellFormed(rs[i].value) {
      NSegmentProps.CharWellFormed(f, diag, gs[i].c, None, 0.0, 0.0);
    }
  }

  /** The first error of a run of results, or all their values when there is none. */
  function Collect<T, E>(rs: seq<Result<T, E>>): (r: Result<seq<T>, E>)
    ensures r.Ok? <==> forall i :: 0 <= i < |rs| ==> rs[i].Ok?
    ensures r.Ok? ==> |r.value| == |rs| && forall i :: 0 <= i < |rs| ==> rs[i] == Ok(r.value[i])
    ensures r.Err? ==> exists i :: 0 <= i < |rs| && rs[i] == Err(r.error) && forall j :: 0 <= j < i ==> rs[j].Ok?
  {
    if rs == [] then Ok([])
    else match rs[0]
      case Err(e) => Err(e)
      case Ok(v) =>
        var rest := Collect(rs[1..]);
        assert forall i :: 1 <= i < |rs| ==> rs[i] == rs[1..][i - 1];
        if rest.Err? then Err(rest.error)
        else Ok([v] + rest.value)
  }
}
