/** Abstract SVG path commands, in the caller's user units.

    The drawing layer serialises these as "M x,y", "L x,y", "l dx,dy", "h dx", "v dy"
    and "z"; the serialisation (unit conversion, three-decimal formatting) is not
    part of this model, so a path is the command list itself.
 */
module PathCmd {

  datatype Cmd =
    | MoveTo(x: real, y: real)
    | LineTo(x: real, y: real)
    | LineBy(dx: real, dy: real)
    | HorzBy(dx: real)
    | VertBy(dy: real)
    | ClosePath
  {
    /** True for the commands that name an absolute point. */
    predicate IsAbsolute() {
      MoveTo? || LineTo?
    }
  }

  /** Moves every absolute point by (dx, dy); relative commands are unchanged. */
  function TranslateCmd(c: Cmd, dx: real, dy: real): Cmd {
    match c
    case MoveTo(x, y) => MoveTo(x + dx, y + dy)
    case LineTo(x, y) => LineTo(x + dx, y + dy)
    case _ => c
  }

  function Translate(cs: seq<Cmd>, dx: real, dy: real): (r: seq<Cmd>)
    ensures |r| == |cs|
    ensures forall i :: 0 <= i < |cs| ==> r[i] == TranslateCmd(cs[i], dx, dy)
  {
    if cs == [] then [] else [TranslateCmd(cs[0], dx, dy)] + Translate(cs[1..], dx, dy)
  }

  lemma TranslateAppend(a: seq<Cmd>, b: seq<Cmd>, dx: real, dy: real)
    ensures Translate(a + b, dx, dy) == Translate(a, dx, dy) + Translate(b, dx, dy)
  {
  }

  lemma TranslateOne(c: Cmd, dx: real, dy: real)
    ensures Translate([c], dx, dy) == [TranslateCmd(c, dx, dy)]
  {
  }

  /** Relative commands are not moved. */
  lemma TranslateRelative(cs: seq<Cmd>, dx: real, dy: real)
    requires forall i :: 0 <= i < |cs| ==> !cs[i].IsAbsolute()
    ensures Translate(cs, dx, dy) == cs
  {
  }

  /** Horizontal shear of the absolute points about the line y == y0. */
  function ShearCmd(c: Cmd, k: real, y0: real): Cmd {
    match c
    case MoveTo(x, y) => MoveTo(x + (y - y0) * k, y)
    case LineTo(x, y) => LineTo(x + (y - y0) * k, y)
    case _ => c
  }

  function Shear(cs: seq<Cmd>, k: real, y0: real): (r: seq<Cmd>)
    ensures |r| == |cs|
    ensures forall i :: 0 <= i < |cs| ==> r[i] == ShearCmd(cs[i], k, y0)
  {
    if cs == [] then [] else [ShearCmd(cs[0], k, y0)] + Shear(cs[1..], k, y0)
  }

  lemma ShearAppend(a: seq<Cmd>, b: seq<Cmd>, k: real, y0: real)
    ensures Shear(a + b, k, y0) == Shear(a, k, y0) + Shear(b, k, y0)
  {
  }

  lemma ShearOne(c: Cmd, k: real, y0: real)
    ensures Shear([c], k, y0) == [ShearCmd(c, k, y0)]
  {
  }

  /** Relative commands are not sheared. */
  lemma ShearRelative(cs: seq<Cmd>, k: real, y0: real)
    requires forall i :: 0 <= i < |cs| ==> !cs[i].IsAbsolute()
    ensures Shear(cs, k, y0) == cs
  {
  }

  /** Sum of the horizontal relative displacements ("h" and "l"). */
  function NetDx(cs: seq<Cmd>): real {
    if cs == [] then 0.0
    else
      (match cs[0]
       case HorzBy(d) => d
       case LineBy(d, _) => d
       case _ => 0.0) + NetDx(cs[1..])
  }

  /** Sum of the vertical relative displacements ("v" and "l"). */
  function NetDy(cs: seq<Cmd>): real {
    if cs == [] then 0.0
    else
      (match cs[0]
       case VertBy(d) => d
       case LineBy(_, d) => d
       case _ => 0.0) + NetDy(cs[1..])
  }

  lemma {:induction false} NetAppend(a: seq<Cmd>, b: seq<Cmd>)
    ensures NetDx(a + b) == NetDx(a) + NetDx(b)
    ensures NetDy(a + b) == NetDy(a) + NetDy(b)
  {
    if a != [] {
      assert (a + b)[1..] == a[1..] + b;
      NetAppend(a[1..], b);
    } else {
      assert a + b == b;
    }
  }

  /** Number of commands that visit an absolute point. */
  function AbsoluteCount(cs: seq<Cmd>): nat {
    if cs == [] then 0 else (if cs[0].IsAbsolute() then 1 else 0) + AbsoluteCount(cs[1..])
  }

  /** Number of "L" commands: the visible strokes of a glyph. */
  function LineCount(cs: seq<Cmd>): nat {
    if cs == [] then 0 else (if cs[0].LineTo? then 1 else 0) + LineCount(cs[1..])
  }

  lemma {:induction false} CountAppend(a: seq<Cmd>, b: seq<Cmd>)
    ensures AbsoluteCount(a + b) == AbsoluteCount(a) + AbsoluteCount(b)
    ensures LineCount(a + b) == LineCount(a) + LineCount(b)
  {
    if a != [] {
      assert (a + b)[1..] == a[1..] + b;
      CountAppend(a[1..], b);
    } else {
      assert a + b == b;
    }
  }

  /** A point in the caller's user units. */
  datatype Point = Point(x: real, y: real)

  /** A visible straight segment of a drawn path. */
  datatype Segment = Segment(from: Point, to: Point)

  /** The segments a path draws, given the current point `at` and the start
      `start` of the current subpath: moves draw nothing, every other command
      draws from the current point to its end point. */
  function Segments(cs: seq<Cmd>, start: Point, at: Point): seq<Segment> {
    if cs == [] then []
    else
      match cs[0]
      case MoveTo(x, y) => Segments(cs[1..], Point(x, y), Point(x, y))
      case LineTo(x, y) => [Segment(at, Point(x, y))] + Segments(cs[1..], start, Point(x, y))
      case LineBy(dx, dy) => [Segment(at, Point(at.x + dx, at.y + dy))] + Segments(cs[1..], start, Point(at.x + dx, at.y + dy))
      case HorzBy(dx) => [Segment(at, Point(at.x + dx, at.y))] + Segments(cs[1..], start, Point(at.x + dx, at.y))
      case VertBy(dy) => [Segment(at, Point(at.x, at.y + dy))] + Segments(cs[1..], start, Point(at.x, at.y + dy))
      case ClosePath => [Segment(at, start)] + Segments(cs[1..], start, start)
  }

  /** A path of moves alone draws nothing. */
  lemma {:induction false} MovesDrawNothing(cs: seq<Cmd>, start: Point, at: Point)
    requires forall i :: 0 <= i < |cs| ==> cs[i].MoveTo?
    ensures Segments(cs, start, at) == []
  {
    if cs != [] {
      MovesDrawNothing(cs[1..], Point(cs[0].x, cs[0].y), Point(cs[0].x, cs[0].y));
    }
  }
}
