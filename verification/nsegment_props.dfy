/** Properties of the segment font: every segment is one outline (a move, its
    lines, and a close exactly when it drew), a glyph is a well-formed stroke
    sequence, only the set of named segments matters, thin segments are a line
    there and back, and skew is a shear applied to the unskewed glyph. */
module NSegmentProps {
  import opened Wrappers
  import opened Shapes
  import opened NSegmentTable
  import opened NSegment

  /** A segment starts with a move to its skewed start, has one line per moving
      step, and ends with a close exactly when it has a line. */
  lemma DefShape(f: Font, diag: Correction, d: SegDef, ox: real, oy: real)
    requires f.height != 0.0
    ensures var o := SegmentOutline(f, diag, d, ox, oy);
      var m := MovingCount(o.steps);
      var ns := DefNodes(f, diag, d, ox, oy);
      && |ns| == (if m > 0 then m + 2 else 1)
      && ns[0] == Move(SkewX(f, oy, o.x, o.y), o.y)
      && (forall i :: 0 < i <= m ==> ns[i].Line?)
      && (m > 0 ==> ns[m + 1] == Close)
    ensures WellFormed(DefNodes(f, diag, d, ox, oy))
  {
    var o := SegmentOutline(f, diag, d, ox, oy);
    var b := LineAll(f, Begin(f, oy, o.x, o.y), o.steps);
    assert b.nodes[..1] == [Move(SkewX(f, oy, o.x, o.y), o.y)];
    assert b.nodes[0] == b.nodes[..1][0];
  }

  /** Each segment of the layout is one outline; past the layout's end there
      are no nodes. */
  lemma SegmentShape(f: Font, diag: Correction, n: nat, ox: real, oy: real)
    requires f.height != 0.0 || n >= |Defs(f.segments)|
    ensures n >= |Defs(f.segments)| ==> SegmentNodes(f, diag, n, ox, oy) == []
    ensures n < |Defs(f.segments)| ==> SegmentNodes(f, diag, n, ox, oy) == DefNodes(f, diag, Defs(f.segments)[n], ox, oy)
    ensures SegmentNodes(f, diag, n, ox, oy) != [] ==> SegmentNodes(f, diag, n, ox, oy)[0].Move?
    ensures forall i :: 0 < i < |SegmentNodes(f, diag, n, ox, oy)| ==> !SegmentNodes(f, diag, n, ox, oy)[i].Move?
    ensures WellFormed(SegmentNodes(f, diag, n, ox, oy))
  {
    if n < |Defs(f.segments)| {
      DefShape(f, diag, Defs(f.segments)[n], ox, oy);
    }
  }

  lemma WellFormedAppend(a: seq<Node>, b: seq<Node>)
    requires WellFormed(a) && WellFormed(b)
    ensures WellFormed(a + b)
  {
    forall i | 0 < i < |a + b| && (a + b)[i].Close?
      ensures !(a + b)[i - 1].Move?
    {
      if i > |a| {
        assert (a + b)[i] == b[i - |a|] && (a + b)[i - 1] == b[i - 1 - |a|];
      }
    }
  }

  /** A glyph is a well-formed stroke sequence, so `add_shape` draws it node by
      node (`Shapes.AddShapeOfEncoded`). */
  lemma {:induction false} NamedWellFormed(f: Font, diag: Correction, names: string, ox: real, oy: real, i: nat)
    requires f.height != 0.0 || Lit(f, names, i) == 0
    ensures WellFormed(NamedFrom(f, diag, names, ox, oy, i))
    decreases f.segments - i
  {
    if i < f.segments {
      NamedWellFormed(f, diag, names, ox, oy, i + 1);
      var head := if Selected(names, i) then SegmentNodes(f, diag, i, ox, oy) else [];
      if Selected(names, i) {
        SegmentShape(f, diag, i, ox, oy);
      }
      WellFormedAppend(head, NamedFrom(f, diag, names, ox, oy, i + 1));
    }
  }

  function Moves(ns: seq<Node>): nat {
    if ns == [] then 0 else (if ns[0].Move? then 1 else 0) + Moves(ns[1..])
  }

  lemma {:induction false} MovesAppend(a: seq<Node>, b: seq<Node>)
    ensures Moves(a + b) == Moves(a) + Moves(b)
  {
    if a == [] {
      assert a + b == b;
    } else {
      assert (a + b)[1..] == a[1..] + b;
      MovesAppend(a[1..], b);
    }
  }

  lemma {:induction false} NoMoves(ns: seq<Node>)
    requires forall i :: 0 <= i < |ns| ==> !ns[i].Move?
    ensures Moves(ns) == 0
  {
    if ns != [] {
      NoMoves(ns[1..]);
    }
  }

  /** A glyph holds one outline per lit segment: its moves count them. */
  lemma {:induction false} NamedMoves(f: Font, diag: Correction, names: string, ox: real, oy: real, i: nat)
    requires f.height != 0.0 || Lit(f, names, i) == 0
    ensures Moves(NamedFrom(f, diag, names, ox, oy, i)) == Lit(f, names, i)
    decreases f.segments - i
  {
    if i < f.segments {
      NamedMoves(f, diag, names, ox, oy, i + 1);
      var head := if Selected(names, i) then SegmentNodes(f, diag, i, ox, oy) else [];
      MovesAppend(head, NamedFrom(f, diag, names, ox, oy, i + 1));
      if Selected(names, i) {
        SegmentMoves(f, diag, i, ox, oy);
      }
    }
  }

  /** A segment of the layout is one outline; past its end there is none. */
  lemma SegmentMoves(f: Font, diag: Correction, n: nat, ox: real, oy: real)
    requires f.height != 0.0 || n >= |Defs(f.segments)|
    ensures Moves(SegmentNodes(f, diag, n, ox, oy)) == if n < |Defs(f.segments)| then 1 else 0
  {
    var seg := SegmentNodes(f, diag, n, ox, oy);
    if n < |Defs(f.segments)| {
      DefShape(f, diag, Defs(f.segments)[n], ox, oy);
      SegmentShape(f, diag, n, ox, oy);
      NoMoves(seg[1..]);
    }
  }

  /** With no segment of the layout lit, nothing is drawn. */
  lemma {:induction false} NamedUnlit(f: Font, diag: Correction, names: string, ox: real, oy: real, i: nat)
    requires Lit(f, names, i) == 0
    ensures NamedFrom(f, diag, names, ox, oy, i) == []
    decreases f.segments - i
  {
    if i < f.segments {
      NamedUnlit(f, diag, names, ox, oy, i + 1);
    }
  }

  /** A lit segment of the layout at or after `i` is counted. */
  lemma {:induction false} LitPositive(f: Font, names: string, i: nat, k: nat)
    requires i <= k < f.segments && k < |Defs(f.segments)| && Selected(names, k)
    ensures Lit(f, names, i) > 0
    decreases k - i
  {
    if i < k {
      LitPositive(f, names, i + 1, k);
    }
  }

  /** Drawing named segments raises exactly when a segment of the layout is
      lit and either the font has no height or a lit diagonal is singular;
      with none lit the glyph is empty and nothing raises. */
  lemma NamedRaises(f: Font, diag: Correction, names: string, ox: real, oy: real)
    ensures NamedOrRaise(f, diag, names, ox, oy).Err? <==> Lit(f, names, 0) > 0 && (f.height == 0.0 || SingularLit(f, diag, names))
    ensures Lit(f, names, 0) == 0 ==> NamedOrRaise(f, diag, names, ox, oy) == Ok([])
  {
    if SingularLit(f, diag, names) {
      var k :| 0 <= k < f.segments && k < |Defs(f.segments)| && Selected(names, k) && Singular(f, diag, Defs(f.segments)[k]);
      LitPositive(f, names, 0, k);
    }
    if Lit(f, names, 0) == 0 {
      NamedUnlit(f, diag, names, ox, oy, 0);
    }
  }

  /** A diagonal shorter than its gaps divides by zero: on a 16-segment font 6
      wide and 2 high with gap 1 and no thickness, segment D spans 1 across
      and -1 up, pi/4 + atan2(-1, 1) is zero, and naming D raises. */
  lemma ShortDiagonalRaises(diag: Correction, skew: real)
    requires diag(-1.0, 1.0).None?
    ensures NamedOrRaise(Font(16, 6.0, 2.0, skew, 1.0, 0.0), diag, "D", 0.0, 0.0) == Err(ZeroDivisionError)
  {
    var f := Font(16, 6.0, 2.0, skew, 1.0, 0.0);
    assert Defs(16)[3] == SegDef(0, 1, 1, 1, false);
    assert LenX(f, Defs(16)[3]) == 1.0 && LenY(f, Defs(16)[3]) == -1.0;
    assert "D"[0] as int == 'A' as int + 3;
    assert Selected("D", 3) && Singular(f, diag, Defs(16)[3]);
  }

  /** Names that light the same segments draw, or raise, alike. */
  lemma NamedSelection(f: Font, diag: Correction, a: string, b: string, ox: real, oy: real)
    requires forall k :: 0 <= k < f.segments ==> (Selected(a, k) <==> Selected(b, k))
    ensures NamedOrRaise(f, diag, a, ox, oy) == NamedOrRaise(f, diag, b, ox, oy)
  {
    SelectionOnly(f, diag, a, b, ox, oy, 0);
  }

  /** Only which segments are lit matters. */
  lemma {:induction false} SelectionOnly(f: Font, diag: Correction, a: string, b: string, ox: real, oy: real, i: nat)
    requires forall k :: i <= k < f.segments ==> (Selected(a, k) <==> Selected(b, k))
    ensures Lit(f, a, i) == Lit(f, b, i)
    ensures f.height != 0.0 || Lit(f, a, i) == 0 ==> NamedFrom(f, diag, a, ox, oy, i) == NamedFrom(f, diag, b, ox, oy, i)
    decreases f.segments - i
  {
    if i < f.segments {
      SelectionOnly(f, diag, a, b, ox, oy, i + 1);
    }
  }

  /** The order and repetition of the letters do not matter. */
  lemma SameLetters(f: Font, diag: Correction, a: string, b: string, ox: real, oy: real)
    requires a != "*" && b != "*"
    requires forall j :: 0 <= j < |a| ==> a[j] in b
    requires forall j :: 0 <= j < |b| ==> b[j] in a
    ensures NamedOrRaise(f, diag, a, ox, oy) == NamedOrRaise(f, diag, b, ox, oy)
  {
    forall k | 0 <= k < f.segments
      ensures Selected(a, k) <==> Selected(b, k)
    {
      if Selected(a, k) {
        var j :| 0 <= j < |a| && a[j] as int == 'A' as int + k;
        var j' :| 0 <= j' < |b| && b[j'] == a[j];
      }
      if Selected(b, k) {
        var j :| 0 <= j < |b| && b[j] as int == 'A' as int + k;
        var j' :| 0 <= j' < |a| && a[j'] == b[j];
      }
    }
    NamedSelection(f, diag, a, b, ox, oy);
  }

  /** The first `n` segment letters, 'A' onwards. */
  function Letters(n: nat): (s: string)
    requires n <= 26
    ensures |s| == n
  {
    seq(n, j requires 0 <= j < n => ('A' as int + j) as char)
  }

  /** "*" lights the same segments as naming every one of them. */
  lemma StarIsEveryLetter(f: Font, diag: Correction, ox: real, oy: real)
    requires 0 <= f.segments <= 26
    ensures NamedOrRaise(f, diag, "*", ox, oy) == NamedOrRaise(f, diag, Letters(f.segments), ox, oy)
  {
    var all := Letters(f.segments);
    forall k | 0 <= k < f.segments
      ensures Selected(all, k)
    {
      assert all[k] as int == 'A' as int + k;
    }
    NamedSelection(f, diag, "*", all, ox, oy);
  }

  /** A character past 0x0F is drawn from the first table entry for it ... */
  lemma CharFromTable(f: Font, diag: Correction, c: char, custom: Option<seq<string>>, ox: real, oy: real, i: nat)
    requires Layout(f.segments) && c > '\U{0F}'
    requires i < |Table(f.segments)| && Table(f.segments)[i].c == c
    requires forall j :: 0 <= j < i ==> Table(f.segments)[j].c != c
    ensures CharSegments(f, diag, c, custom, ox, oy) == NamedOrRaise(f, diag, Table(f.segments)[i].names, ox, oy)
  {
    var r := Lookup(Table(f.segments), c);
    var i' :| 0 <= i' < |Table(f.segments)| && Table(f.segments)[i'] == Entry(c, r.value)
              && forall j :: 0 <= j < i' ==> Table(f.segments)[j].c != c;
    assert i' == i;
  }

  /** ... and one the table lacks draws nothing, whatever the font. */
  lemma CharMissing(f: Font, diag: Correction, c: char, custom: Option<seq<string>>, ox: real, oy: real)
    requires c > '\U{0F}'
    requires forall j :: 0 <= j < |Table(f.segments)| ==> Table(f.segments)[j].c != c
    ensures CharSegments(f, diag, c, custom, ox, oy) == Ok([])
  {
  }

  /** On the 7-segment display '8' lights every segment. */
  lemma EightLightsAll(f: Font, diag: Correction, custom: Option<seq<string>>, ox: real, oy: real)
    requires f.segments == 7
    ensures CharSegments(f, diag, '8', custom, ox, oy) == NamedOrRaise(f, diag, "*", ox, oy)
  {
    EightEntry(f, diag, custom, ox, oy);
    EightLetters(f, diag, ox, oy);
  }

  lemma EightEntry(f: Font, diag: Correction, custom: Option<seq<string>>, ox: real, oy: real)
    requires f.segments == 7
    ensures CharSegments(f, diag, '8', custom, ox, oy) == NamedOrRaise(f, diag, "ACFGEBD", ox, oy)
  {
    assert Font7[11] == Entry('8', "ACFGEBD");
    assert forall j :: 0 <= j < 11 ==> Font7[j].c != '8';
    CharFromTable(f, diag, '8', custom, ox, oy, 11);
  }

  /** The seven letters of '8' name every segment of the 7-segment layout. */
  lemma EightLetters(f: Font, diag: Correction, ox: real, oy: real)
    requires f.segments == 7
    ensures NamedOrRaise(f, diag, "ACFGEBD", ox, oy) == NamedOrRaise(f, diag, "*", ox, oy)
  {
    var s := "ACFGEBD";
    assert s[0] as int == 'A' as int + 0;
    assert s[5] as int == 'A' as int + 1;
    assert s[1] as int == 'A' as int + 2;
    assert s[6] as int == 'A' as int + 3;
    assert s[4] as int == 'A' as int + 4;
    assert s[2] as int == 'A' as int + 5;
    assert s[3] as int == 'A' as int + 6;
    NamedSelection(f, diag, s, "*", ox, oy);
  }

  /** Every segment of every layout spans some distance on the grid. */
  lemma DefsSpan(segments: int, n: nat)
    requires n < |Defs(segments)|
    ensures Defs(segments)[n].dx != 0 || Defs(segments)[n].dy != 0
  {
  }

  lemma {:induction false} AllMoving(steps: seq<Delta>)
    requires forall i :: 0 <= i < |steps| ==> Moving(steps[i])
    ensures MovingCount(steps) == |steps|
  {
    if steps != [] {
      AllMoving(steps[1..]);
    }
  }

  /** With thickness, a bar whose length is not zero is a five-sided outline,
      or four-sided with a square cap; so is a diagonal whose corrected
      thickness and length are not zero. */
  lemma ThickSegmentLines(f: Font, diag: Correction, d: SegDef, ox: real, oy: real)
    requires f.height != 0.0 && f.thick > 0.0 && (d.dx != 0 || d.dy != 0)
    requires if Vertical(d) then LenY(f, d) != 0.0
      else if Horizontal(d) then LenX(f, d) != 0.0
      else DiagThick(f, diag, d) != 0.0 && (LenX(f, d) != DiagThick(f, diag, d) || LenY(f, d) != DiagThick(f, diag, d))
    ensures |DefNodes(f, diag, d, ox, oy)| == (if Vertical(d) && d.square then 4 else 5) + 2
  {
    var o := SegmentOutline(f, diag, d, ox, oy);
    var sx, sy := Sign(d.dx), Sign(d.dy);
    if !Vertical(d) && !Horizontal(d) {
      var dt := DiagThick(f, diag, d);
      assert sx != 0.0 && sy != 0.0 && dt != 0.0;
      assert dt * sy != 0.0 && sx * dt != 0.0;
    }
    AllMoving(o.steps);
    DefShape(f, diag, d, ox, oy);
  }

  /** The two step lists a thin segment has: out along `e` and back, with
      zero steps around. */
  lemma ThereAndBack(f: Font, b: Builder, steps: seq<Delta>, e: Delta)
    requires f.height != 0.0 && Moving(e)
    requires var z, back := Delta(0.0, 0.0), Delta(-e.dx, -e.dy);
      steps == [z, e, z, z, back] || steps == [z, e, z, back]
    ensures LineAll(f, b, steps)
         == Builder(b.nodes + [Line(SkewX(f, b.originY, b.prevX + e.dx, b.prevY + e.dy), b.prevY + e.dy),
                               Line(SkewX(f, b.originY, b.prevX, b.prevY), b.prevY)],
                    b.draws + 2, b.prevX, b.prevY, b.originY)
  {
    OutBack(f, b, e);
    if |steps| == 5 {
      FiveSteps(f, b, e);
    } else {
      FourSteps(f, b, e);
    }
  }

  /** A line out along `e` and one straight back. */
  lemma OutBack(f: Font, b: Builder, e: Delta)
    requires f.height != 0.0 && Moving(e)
    ensures LineBy(f, LineBy(f, b, e), Delta(-e.dx, -e.dy))
         == Builder(b.nodes + [Line(SkewX(f, b.originY, b.prevX + e.dx, b.prevY + e.dy), b.prevY + e.dy),
                               Line(SkewX(f, b.originY, b.prevX, b.prevY), b.prevY)],
                    b.draws + 2, b.prevX, b.prevY, b.originY)
  {
    var l1 := Line(SkewX(f, b.originY, b.prevX + e.dx, b.prevY + e.dy), b.prevY + e.dy);
    var l2 := Line(SkewX(f, b.originY, b.prevX, b.prevY), b.prevY);
    var b1 := LineBy(f, b, e);
    assert b1 == Builder(b.nodes + [l1], b.draws + 1, b.prevX + e.dx, b.prevY + e.dy, b.originY);
    assert b1.prevX + -e.dx == b.prevX && b1.prevY + -e.dy == b.prevY;
    assert (b.nodes + [l1]) + [l2] == b.nodes + [l1, l2];
  }

  /** The zero steps of the five-step list draw nothing. */
  lemma FiveSteps(f: Font, b: Builder, e: Delta)
    requires f.height != 0.0 && Moving(e)
    ensures var z, back := Delta(0.0, 0.0), Delta(-e.dx, -e.dy);
      LineAll(f, b, [z, e, z, z, back]) == LineBy(f, LineBy(f, b, e), back)
  {
    var z, back := Delta(0.0, 0.0), Delta(-e.dx, -e.dy);
    var b1 := LineBy(f, b, e);
    assert [z, e, z, z, back][1..] == [e, z, z, back];
    assert [e, z, z, back][1..] == [z, z, back];
    FourSteps(f, b, e);
    assert LineAll(f, b1, [z, z, back]) == LineAll(f, b1, [z, back]);
  }

  /** The zero steps of the four-step list draw nothing. */
  lemma FourSteps(f: Font, b: Builder, e: Delta)
    requires f.height != 0.0 && Moving(e)
    ensures var z, back := Delta(0.0, 0.0), Delta(-e.dx, -e.dy);
      LineAll(f, b, [z, e, z, back]) == LineBy(f, LineBy(f, b, e), back)
    ensures var z, back := Delta(0.0, 0.0), Delta(-e.dx, -e.dy);
      LineAll(f, LineBy(f, b, e), [z, back]) == LineBy(f, LineBy(f, b, e), back)
  {
    var z, back := Delta(0.0, 0.0), Delta(-e.dx, -e.dy);
    var b1 := LineBy(f, b, e);
    var b2 := LineBy(f, b1, back);
    assert [z, e, z, back][1..] == [e, z, back];
    assert [e, z, back][1..] == [z, back];
    assert [z, back][1..] == [back];
    assert LineAll(f, b2, []) == b2;
    assert LineAll(f, b1, [back]) == b2;
    assert LineAll(f, b1, [z, back]) == b2;
    assert LineAll(f, b, [e, z, back]) == LineAll(f, b1, [z, back]);
    assert LineAll(f, b, [z, e, z, back]) == LineAll(f, b, [e, z, back]);
  }

  /** With no thickness a segment's steps are out along its extent and back,
      with zero steps around, from its grid point moved in by the gap. */
  lemma ThinSteps(f: Font, diag: Correction, d: SegDef, ox: real, oy: real)
    requires f.thick == 0.0
    ensures ThinOutline(f, d, ox, oy, SegmentOutline(f, diag, d, ox, oy))
  {
    if Vertical(d) {
      ThinVertical(f, diag, d, ox, oy);
    } else if Horizontal(d) {
      ThinHorizontal(f, diag, d, ox, oy);
    } else {
      ThinDiagonal(f, diag, d, ox, oy);
    }
  }

  /** The outline of a segment drawn with no thickness. */
  predicate ThinOutline(f: Font, d: SegDef, ox: real, oy: real, o: Outline) {
    && o.x == ox + d.x0 as real / 2.0 * f.width + Sign(d.dx) * f.gap
    && o.y == oy + d.y0 as real / 2.0 * f.height + Sign(d.dy) * f.gap
    && OutAndBack(o.steps, Extent(d, LenX(f, d), LenY(f, d)))
  }

  /** How far a segment of bar lengths (lenX, lenY) reaches, in the
      direction of its grid delta. */
  function Extent(d: SegDef, lenX: real, lenY: real): Delta {
    Delta(Sign(d.dx) * lenX, Sign(d.dy) * lenY)
  }

  /** Steps out along `e` and back, with zero steps around. */
  predicate OutAndBack(steps: seq<Delta>, e: Delta) {
    var z, back := Delta(0.0, 0.0), Delta(-e.dx, -e.dy);
    steps == [z, e, z, z, back] || steps == [z, e, z, back]
  }

  lemma ThinVertical(f: Font, diag: Correction, d: SegDef, ox: real, oy: real)
    requires f.thick == 0.0 && Vertical(d)
    ensures ThinOutline(f, d, ox, oy, SegmentOutline(f, diag, d, ox, oy))
  {
    var o := SegmentOutline(f, diag, d, ox, oy);
    var e := Extent(d, LenX(f, d), LenY(f, d));
    var z, back := Delta(0.0, 0.0), Delta(-e.dx, -e.dy);
    assert Sign(d.dx) == 0.0;
    assert o.steps[0] == z && o.steps[1] == e && o.steps[2] == z;
    if d.square {
      assert |o.steps| == 4 && o.steps[3] == back;
      assert o.steps == [z, e, z, back];
    } else {
      assert |o.steps| == 5 && o.steps[3] == z && o.steps[4] == back;
      assert o.steps == [z, e, z, z, back];
    }
  }

  lemma ThinHorizontal(f: Font, diag: Correction, d: SegDef, ox: real, oy: real)
    requires f.thick == 0.0 && !Vertical(d) && Horizontal(d)
    ensures ThinOutline(f, d, ox, oy, SegmentOutline(f, diag, d, ox, oy))
  {
    var o := SegmentOutline(f, diag, d, ox, oy);
    var e := Extent(d, LenX(f, d), LenY(f, d));
    var z, back := Delta(0.0, 0.0), Delta(-e.dx, -e.dy);
    assert Sign(d.dy) == 0.0;
    assert |o.steps| == 5;
    assert o.steps[0] == z && o.steps[1] == e && o.steps[2] == z;
    assert o.steps[3] == z && o.steps[4] == back;
    assert o.steps == [z, e, z, z, back];
  }

  lemma ThinDiagonal(f: Font, diag: Correction, d: SegDef, ox: real, oy: real)
    requires f.thick == 0.0 && !Vertical(d) && !Horizontal(d)
    ensures ThinOutline(f, d, ox, oy, SegmentOutline(f, diag, d, ox, oy))
  {
    assert DiagThick(f, diag, d) == 0.0;
    ThinParallelogram(f.width, f.height, f.gap, LenX(f, d), LenY(f, d), d, ox, oy);
  }

  /** A parallelogram of no thickness steps out and straight back. */
  lemma ThinParallelogram(width: real, height: real, gap: real, lenX: real, lenY: real, d: SegDef, ox: real, oy: real)
    ensures Diagonal(width, height, gap, 0.0, lenX, lenY, 0.0, d, ox, oy).x == ox + d.x0 as real / 2.0 * width + Sign(d.dx) * gap
    ensures Diagonal(width, height, gap, 0.0, lenX, lenY, 0.0, d, ox, oy).y == oy + d.y0 as real / 2.0 * height + Sign(d.dy) * gap
    ensures OutAndBack(Diagonal(width, height, gap, 0.0, lenX, lenY, 0.0, d, ox, oy).steps, Extent(d, lenX, lenY))
  {
    assert Diagonal(width, height, gap, 0.0, lenX, lenY, 0.0, d, ox, oy).steps
        == [Delta(0.0, 0.0 * Sign(d.dy)), Delta(Sign(d.dx) * (lenX - 0.0), Sign(d.dy) * (lenY - 0.0)), Delta(Sign(d.dx) * 0.0, 0.0),
            Delta(0.0, -Sign(d.dy) * 0.0), Delta(-Sign(d.dx) * (lenX - 0.0), -Sign(d.dy) * (lenY - 0.0))];
    ZeroThickSteps(Sign(d.dx), Sign(d.dy), lenX, lenY);
  }

  /** The steps of a parallelogram of no thickness, as the zero thickness
      leaves them. */
  lemma ZeroThickSteps(sx: real, sy: real, lenX: real, lenY: real)
    ensures [Delta(0.0, 0.0 * sy), Delta(sx * (lenX - 0.0), sy * (lenY - 0.0)), Delta(sx * 0.0, 0.0),
             Delta(0.0, -sy * 0.0), Delta(-sx * (lenX - 0.0), -sy * (lenY - 0.0))]
         == [Delta(0.0, 0.0), Delta(sx * lenX, sy * lenY), Delta(0.0, 0.0), Delta(0.0, 0.0), Delta(-(sx * lenX), -(sy * lenY))]
  {
    assert -sx * lenX == -(sx * lenX) && -sy * lenY == -(sy * lenY);
  }

  /** With no thickness a segment is a line from its start across its extent
      and straight back: its start is the grid point moved in by the gap, and
      its extent is the segment's span less the gaps. */
  lemma ThinSegment(f: Font, diag: Correction, d: SegDef, ox: real, oy: real)
    requires f.height != 0.0 && f.thick == 0.0
    requires Sign(d.dx) * LenX(f, d) != 0.0 || Sign(d.dy) * LenY(f, d) != 0.0
    ensures var x := ox + d.x0 as real / 2.0 * f.width + Sign(d.dx) * f.gap;
      var y := oy + d.y0 as real / 2.0 * f.height + Sign(d.dy) * f.gap;
      var ex, ey := x + Sign(d.dx) * LenX(f, d), y + Sign(d.dy) * LenY(f, d);
      DefNodes(f, diag, d, ox, oy)
        == [Move(SkewX(f, oy, x, y), y), Line(SkewX(f, oy, ex, ey), ey), Line(SkewX(f, oy, x, y), y), Close]
  {
    ThinSteps(f, diag, d, ox, oy);
    ThinSegmentNodes(f, diag, d, ox, oy,
      ox + d.x0 as real / 2.0 * f.width + Sign(d.dx) * f.gap, oy + d.y0 as real / 2.0 * f.height + Sign(d.dy) * f.gap,
      Sign(d.dx) * LenX(f, d), Sign(d.dy) * LenY(f, d));
  }

  /** The nodes of a thin segment whose outline starts at (x, y) and reaches
      (ex, ey) from there. */
  lemma ThinSegmentNodes(f: Font, diag: Correction, d: SegDef, ox: real, oy: real, x: real, y: real, ex: real, ey: real)
    requires f.height != 0.0 && (ex != 0.0 || ey != 0.0)
    requires SegmentOutline(f, diag, d, ox, oy).x == x && SegmentOutline(f, diag, d, ox, oy).y == y
    requires OutAndBack(SegmentOutline(f, diag, d, ox, oy).steps, Delta(ex, ey))
    ensures DefNodes(f, diag, d, ox, oy)
         == [Move(SkewX(f, oy, x, y), y), Line(SkewX(f, oy, x + ex, y + ey), y + ey), Line(SkewX(f, oy, x, y), y), Close]
  {
    ThinNodes(f, SegmentOutline(f, diag, d, ox, oy), oy, Delta(ex, ey));
  }

  /** The nodes of an outline that goes out along `e` and back. */
  lemma ThinNodes(f: Font, o: Outline, oy: real, e: Delta)
    requires f.height != 0.0 && Moving(e) && OutAndBack(o.steps, e)
    ensures Closed(LineAll(f, Begin(f, oy, o.x, o.y), o.steps))
         == [Move(SkewX(f, oy, o.x, o.y), o.y), Line(SkewX(f, oy, o.x + e.dx, o.y + e.dy), o.y + e.dy),
             Line(SkewX(f, oy, o.x, o.y), o.y), Close]
  {
    var b := Begin(f, oy, o.x, o.y);
    ThereAndBack(f, b, o.steps, e);
    var l1 := Line(SkewX(f, oy, o.x + e.dx, o.y + e.dy), o.y + e.dy);
    var l2 := Line(SkewX(f, oy, o.x, o.y), o.y);
    assert b.nodes + [l1, l2] + [Close] == [Move(SkewX(f, oy, o.x, o.y), o.y), l1, l2, Close];
  }

  /** The font with its skew taken away. */
  function Unskewed(f: Font): Font {
    f.(skew := 0.0)
  }

  /** A node with its x shifted by the skew at its height. */
  function SkewNode(f: Font, oy: real, n: Node): Node
    requires f.height != 0.0
  {
    match n
    case Move(x, y) => Move(SkewX(f, oy, x, y), y)
    case Line(x, y) => Line(SkewX(f, oy, x, y), y)
    case Close => Close
  }

  function SkewAll(f: Font, oy: real, ns: seq<Node>): (r: seq<Node>)
    requires f.height != 0.0
    ensures |r| == |ns|
  {
    seq(|ns|, i requires 0 <= i < |ns| => SkewNode(f, oy, ns[i]))
  }

  lemma SkewAppend(f: Font, oy: real, a: seq<Node>, b: seq<Node>)
    requires f.height != 0.0
    ensures SkewAll(f, oy, a + b) == SkewAll(f, oy, a) + SkewAll(f, oy, b)
  {
  }

  /** `b` is `b0` skewed: the same state, with every node's x shifted. */
  predicate SkewOf(f: Font, b0: Builder, b: Builder)
    requires f.height != 0.0
  {
    && b.nodes == SkewAll(f, b.originY, b0.nodes)
    && b.draws == b0.draws && b.prevX == b0.prevX && b.prevY == b0.prevY && b.originY == b0.originY
  }

  lemma LineBySkew(f: Font, b0: Builder, b: Builder, d: Delta)
    requires f.height != 0.0 && SkewOf(f, b0, b)
    ensures SkewOf(f, LineBy(Unskewed(f), b0, d), LineBy(f, b, d))
  {
    if Moving(d) {
      var x, y := b.prevX + d.dx, b.prevY + d.dy;
      assert SkewX(Unskewed(f), b.originY, x, y) == x;
      SkewAppend(f, b.originY, b0.nodes, [Line(x, y)]);
    }
  }

  lemma {:induction false} LineAllSkew(f: Font, b0: Builder, b: Builder, steps: seq<Delta>)
    requires f.height != 0.0 && SkewOf(f, b0, b)
    ensures SkewOf(f, LineAll(Unskewed(f), b0, steps), LineAll(f, b, steps))
    decreases |steps|
  {
    if steps != [] {
      LineBySkew(f, b0, b, steps[0]);
      LineAllSkew(f, LineBy(Unskewed(f), b0, steps[0]), LineBy(f, b, steps[0]), steps[1..]);
    }
  }

  lemma OutlineIgnoresSkew(f: Font, diag: Correction, d: SegDef, ox: real, oy: real)
    ensures SegmentOutline(Unskewed(f), diag, d, ox, oy) == SegmentOutline(f, diag, d, ox, oy)
  {
    SameOutline(f, Unskewed(f), diag, d, ox, oy);
  }

  /** The outline reads every field of the font but the skew. */
  lemma SameOutline(f: Font, g: Font, diag: Correction, d: SegDef, ox: real, oy: real)
    requires g == f.(skew := g.skew)
    ensures SegmentOutline(g, diag, d, ox, oy) == SegmentOutline(f, diag, d, ox, oy)
  {
    if Vertical(d) {
      SameBar(f, g, diag, d, ox, oy);
    } else if Horizontal(d) {
      SameBar(f, g, diag, d, ox, oy);
    } else {
      SameDiagonal(f, g, diag, d, ox, oy);
    }
  }

  lemma SameBar(f: Font, g: Font, diag: Correction, d: SegDef, ox: real, oy: real)
    requires g == f.(skew := g.skew)
    requires Vertical(d) || Horizontal(d)
    ensures SegmentOutline(g, diag, d, ox, oy) == SegmentOutline(f, diag, d, ox, oy)
  {
    SameFields(f, g, diag, d);
    assert Bar(g.width, g.height, g.gap, g.thick, LenX(g, d), LenY(g, d), d, ox, oy)
        == Bar(f.width, f.height, f.gap, f.thick, LenX(f, d), LenY(f, d), d, ox, oy);
  }

  lemma SameDiagonal(f: Font, g: Font, diag: Correction, d: SegDef, ox: real, oy: real)
    requires g == f.(skew := g.skew)
    requires !Vertical(d) && !Horizontal(d)
    ensures SegmentOutline(g, diag, d, ox, oy) == SegmentOutline(f, diag, d, ox, oy)
  {
    SameFields(f, g, diag, d);
    assert Diagonal(g.width, g.height, g.gap, g.thick, LenX(g, d), LenY(g, d), DiagThick(g, diag, d), d, ox, oy)
        == Diagonal(f.width, f.height, f.gap, f.thick, LenX(f, d), LenY(f, d), DiagThick(f, diag, d), d, ox, oy);
  }

  lemma SameFields(f: Font, g: Font, diag: Correction, d: SegDef)
    requires g == f.(skew := g.skew)
    ensures g.width == f.width && g.height == f.height && g.gap == f.gap && g.thick == f.thick
    ensures LenX(g, d) == LenX(f, d) && LenY(g, d) == LenY(f, d) && DiagThick(g, diag, d) == DiagThick(f, diag, d)
  {
  }

  /** Skew is a shear of the unskewed segment. */
  lemma DefSkew(f: Font, diag: Correction, d: SegDef, ox: real, oy: real)
    requires f.height != 0.0
    ensures DefNodes(f, diag, d, ox, oy) == SkewAll(f, oy, DefNodes(Unskewed(f), diag, d, ox, oy))
  {
    var o := SegmentOutline(f, diag, d, ox, oy);
    OutlineIgnoresSkew(f, diag, d, ox, oy);
    assert SkewX(Unskewed(f), oy, o.x, o.y) == o.x;
    var b0, b := Begin(Unskewed(f), oy, o.x, o.y), Begin(f, oy, o.x, o.y);
    assert SkewOf(f, b0, b);
    LineAllSkew(f, b0, b, o.steps);
    var r0, r := LineAll(Unskewed(f), b0, o.steps), LineAll(f, b, o.steps);
    SkewAppend(f, oy, r0.nodes, [Close]);
  }

  lemma SegmentSkew(f: Font, diag: Correction, n: nat, ox: real, oy: real)
    requires f.height != 0.0
    ensures SegmentNodes(f, diag, n, ox, oy) == SkewAll(f, oy, SegmentNodes(Unskewed(f), diag, n, ox, oy))
  {
    if n < |Defs(f.segments)| {
      DefSkew(f, diag, Defs(f.segments)[n], ox, oy);
    }
  }

  /** A skewed glyph is the unskewed glyph sheared, segment by segment. */
  lemma {:induction false} NamedSkew(f: Font, diag: Correction, names: string, ox: real, oy: real, i: nat)
    requires f.height != 0.0
    ensures NamedFrom(f, diag, names, ox, oy, i) == SkewAll(f, oy, NamedFrom(Unskewed(f), diag, names, ox, oy, i))
    decreases f.segments - i
  {
    if i < f.segments {
      NamedSkew(f, diag, names, ox, oy, i + 1);
      SegmentSkew(f, diag, i, ox, oy);
      var head0 := if Selected(names, i) then SegmentNodes(Unskewed(f), diag, i, ox, oy) else [];
      SkewAppend(f, oy, head0, NamedFrom(Unskewed(f), diag, names, ox, oy, i + 1));
    }
  }

  /** Skew never decides whether a character raises, and a glyph that does
      not raise is the unskewed glyph sheared. */
  lemma CharSkew(f: Font, diag: Correction, c: char, custom: Option<seq<string>>, ox: real, oy: real)
    ensures CharSegments(f, diag, c, custom, ox, oy).Err? ==> CharSegments(f, diag, c, custom, ox, oy) == CharSegments(Unskewed(f), diag, c, custom, ox, oy)
    ensures CharSegments(f, diag, c, custom, ox, oy).Ok? <==> CharSegments(Unskewed(f), diag, c, custom, ox, oy).Ok?
    ensures f.height != 0.0 && CharSegments(f, diag, c, custom, ox, oy).Ok? ==>
              CharSegments(f, diag, c, custom, ox, oy).value == SkewAll(f, oy, CharSegments(Unskewed(f), diag, c, custom, ox, oy).value)
    ensures f.height == 0.0 && CharSegments(f, diag, c, custom, ox, oy).Ok? ==> CharSegments(f, diag, c, custom, ox, oy).value == []
  {
    var names := CharNames(f, c, custom);
    if names.Some? {
      SingularSkewFree(f, diag, names.value);
      if f.height != 0.0 {
        NamedSkew(f, diag, names.value, ox, oy, 0);
      } else {
        LitSkewFree(f, names.value, 0);
        NamedRaises(f, diag, names.value, ox, oy);
        NamedRaises(Unskewed(f), diag, names.value, ox, oy);
      }
    }
  }

  /** Nor which lit diagonals are singular. */
  lemma SingularSkewFree(f: Font, diag: Correction, names: string)
    ensures SingularLit(f, diag, names) <==> SingularLit(Unskewed(f), diag, names)
  {
    forall k | 0 <= k < |Defs(f.segments)|
      ensures Singular(f, diag, Defs(f.segments)[k]) <==> Singular(Unskewed(f), diag, Defs(f.segments)[k])
    {
      SameFields(f, Unskewed(f), diag, Defs(f.segments)[k]);
    }
  }

  /** Which segments are lit does not depend on the skew. */
  lemma {:induction false} LitSkewFree(f: Font, names: string, i: nat)
    ensures Lit(f, names, i) == Lit(Unskewed(f), names, i)
    decreases f.segments - i
  {
    if i < f.segments {
      LitSkewFree(f, names, i + 1);
    }
  }

  /** The segment names a character resolves to, when it resolves without
      raising: its `custom` string, or its first table entry. */
  function CharNames(f: Font, c: char, custom: Option<seq<string>>): Option<string> {
    if !Layout(f.segments) then None
    else if c <= '\U{0F}' then
      if custom.Some? && c as int < |custom.value| then Some(custom.value[c as int]) else None
    else Lookup(Table(f.segments), c)
  }

  /** A glyph that does not raise is a well-formed node list with one outline
      per lit segment of the names the character resolves to. */
  lemma CharWellFormed(f: Font, diag: Correction, c: char, custom: Option<seq<string>>, ox: real, oy: real)
    ensures var r := CharSegments(f, diag, c, custom, ox, oy);
      r.Ok? ==> WellFormed(r.value) && Moves(r.value) == (if CharNames(f, c, custom).Some? then Lit(f, CharNames(f, c, custom).value, 0) else 0)
  {
    var names := CharNames(f, c, custom);
    if names.Some? && (f.height != 0.0 || Lit(f, names.value, 0) == 0) {
      NamedWellFormed(f, diag, names.value, ox, oy, 0);
      NamedMoves(f, diag, names.value, ox, oy, 0);
    }
  }
}
