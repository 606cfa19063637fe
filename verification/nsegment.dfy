/** `NSegmentFont`: characters drawn as the lit segments of a 16-, 14- or
    7-segment display. Each lit segment is one closed outline (a bevelled or
    square-ended bar, or a parallelogram for a diagonal), and the whole glyph
    is skewed by shifting x in proportion to the height above the origin.

    The helpers `_moveto`, `_lineby`, `_close` and `_add` share instance
    fields; here that state is a `Builder` value threaded through them. */
module NSegment {
  import opened Wrappers
  import opened Shapes
  import opened NSegmentTable

  /** The constructor's parameters: segment count, character width and
      height, skew (how far the top is shifted right), gap (how far short of
      the corners a segment ends) and thickness (0 draws simple lines). */
  datatype Font = Font(segments: int, width: real, height: real, skew: real, gap: real, thick: real)

  /** The segment definitions of a layout; a count other than 16, 14 or 7 has none. */
  function Defs(segments: int): seq<SegDef> {
    if segments == 16 then Defs16 else if segments == 14 then Defs14 else if segments == 7 then Defs7 else []
  }

  function Table(segments: int): seq<Entry> {
    if segments == 16 then Font16 else if segments == 14 then Font14 else if segments == 7 then Font7 else []
  }

  /** `d / abs(d)` for a non-zero grid delta, 0 for zero. */
  function Sign(d: int): (s: real)
    ensures s == 0.0 <==> d == 0
    ensures d > 0 ==> s == 1.0
    ensures d < 0 ==> s == -1.0
  {
    if d > 0 then 1.0 else if d < 0 then -1.0 else 0.0
  }

  function Abs(d: int): real {
    if d < 0 then (-d) as real else d as real
  }

  /** The diagonal thickness correction, sqrt(2) / sin(pi/4 + atan2(lenY, lenX)),
      as a function of (lenY, lenX); it is left uninterpreted. `None` stands
      for a sine that is zero, where the division raises ZeroDivisionError. */
  type Correction = (real, real) -> Option<real>

  datatype Delta = Delta(dx: real, dy: real)

  /** A segment's outline before skewing: its first point and the relative
      steps from there. */
  datatype Outline = Outline(x: real, y: real, steps: seq<Delta>)

  /** The bar length along x and along y: the segment's span less a gap and a
      thickness at each end. */
  function LenX(f: Font, d: SegDef): real {
    f.width / 2.0 * Abs(d.dx) - 2.0 * (f.gap + f.thick)
  }

  function LenY(f: Font, d: SegDef): real {
    f.height / 2.0 * Abs(d.dy) - 2.0 * (f.gap + f.thick)
  }

  /** The thickness a diagonal is drawn with. A singular correction raises
      before any of it is drawn, so the 0.0 given then is never used. */
  function DiagThick(f: Font, diag: Correction, d: SegDef): real {
    match diag(LenY(f, d), LenX(f, d))
    case Some(k) => f.thick * k
    case None => 0.0
  }

  /** A diagonal whose thickness correction divides by zero. */
  predicate Singular(f: Font, diag: Correction, d: SegDef) {
    !Vertical(d) && !Horizontal(d) && diag(LenY(f, d), LenX(f, d)).None?
  }

  predicate Vertical(d: SegDef) {
    d.dx == 0 && d.dy != 0
  }

  predicate Horizontal(d: SegDef) {
    d.dx != 0 && d.dy == 0
  }

  /** The geometry of `get_segment_list` for one definition, with the character
      origin at (ox, oy). */
  function SegmentOutline(f: Font, diag: Correction, d: SegDef, ox: real, oy: real): Outline {
    if Vertical(d) || Horizontal(d) then Bar(f.width, f.height, f.gap, f.thick, LenX(f, d), LenY(f, d), d, ox, oy)
    else Diagonal(f.width, f.height, f.gap, f.thick, LenX(f, d), LenY(f, d), DiagThick(f, diag, d), d, ox, oy)
  }

  /** The vertical and horizontal branches of the outline as a function of the
      four fields they read and the bar lengths: a bevelled bar, or on a
      vertical with `square` set a square-ended one. */
  function Bar(width: real, height: real, gap: real, t: real, lenX: real, lenY: real, d: SegDef, ox: real, oy: real): Outline
    requires Vertical(d) || Horizontal(d)
  {
    var sx, sy := Sign(d.dx), Sign(d.dy);
    var orgX := ox + d.x0 as real / 2.0 * width + sx * gap;
    var orgY := oy + d.y0 as real / 2.0 * height + sy * gap;
    if Vertical(d) then
      var cap := if d.square then [Delta(2.0 * sy * t, 0.0)] else [Delta(sy * t, sy * t), Delta(sy * t, -sy * t)];
      Outline(orgX, orgY, [Delta(-sy * t, sy * t), Delta(0.0, sy * lenY)] + cap + [Delta(0.0, -sy * lenY)])
    else
      Outline(orgX, orgY,
        [Delta(sx * t, sx * t), Delta(sx * lenX, 0.0), Delta(sx * t, -sx * t), Delta(-sx * t, -sx * t), Delta(-sx * lenX, 0.0)])
  }

  /** The diagonal branch of the outline as a function of the four fields it
      reads, the bar lengths and the corrected thickness. */
  function Diagonal(width: real, height: real, gap: real, t: real, lenX: real, lenY: real, dt: real, d: SegDef, ox: real, oy: real): Outline {
    var sx, sy := Sign(d.dx), Sign(d.dy);
    var orgX := ox + d.x0 as real / 2.0 * width + sx * gap;
    var orgY := oy + d.y0 as real / 2.0 * height + sy * gap;
    var lx, ly := lenX - dt, lenY - dt;
    Outline(orgX + sx * t, orgY + sy * t,
      [Delta(0.0, dt * sy), Delta(sx * lx, sy * ly), Delta(sx * dt, 0.0), Delta(0.0, -sy * dt), Delta(-sx * lx, -sy * ly)])
  }

  /** The builder state the helpers share: the current segment's nodes, how
      many lines it has, the last point added, and the skew baseline. */
  datatype Builder = Builder(nodes: seq<Node>, draws: nat, prevX: real, prevY: real, originY: real)

  /** The skewed x of a point: shifted right by skew times its height above the
      baseline, as a fraction of the character height. */
  function SkewX(f: Font, originY: real, x: real, y: real): real
    requires f.height != 0.0
  {
    x + f.skew * (y - originY) / f.height
  }

  /** `_moveto`: the node list restarts with a single move. */
  function Begin(f: Font, originY: real, x: real, y: real): Builder
    requires f.height != 0.0
  {
    Builder([Move(SkewX(f, originY, x, y), y)], 0, x, y, originY)
  }

  predicate Moving(d: Delta) {
    d.dx != 0.0 || d.dy != 0.0
  }

  /** `_lineby`: a line to the displaced point, or nothing for a zero step. */
  function LineBy(f: Font, b: Builder, d: Delta): Builder
    requires f.height != 0.0
  {
    if Moving(d) then
      var x, y := b.prevX + d.dx, b.prevY + d.dy;
      Builder(b.nodes + [Line(SkewX(f, b.originY, x, y), y)], b.draws + 1, x, y, b.originY)
    else b
  }

  /** How many of the steps move. */
  function MovingCount(steps: seq<Delta>): nat {
    if steps == [] then 0 else (if Moving(steps[0]) then 1 else 0) + MovingCount(steps[1..])
  }

  /** The steps in order: one line per moving step, appended after the nodes
      already there. */
  function LineAll(f: Font, b: Builder, steps: seq<Delta>): (r: Builder)
    requires f.height != 0.0
    ensures |r.nodes| == |b.nodes| + MovingCount(steps)
    ensures r.nodes[..|b.nodes|] == b.nodes
    ensures forall i :: |b.nodes| <= i < |r.nodes| ==> r.nodes[i].Line?
    ensures r.draws == b.draws + MovingCount(steps)
    ensures r.originY == b.originY
    decreases |steps|
  {
    if steps == [] then b else LineAll(f, LineBy(f, b, steps[0]), steps[1..])
  }

  /** `_close`: a close only when the segment drew a line. */
  function Closed(b: Builder): seq<Node> {
    if b.draws > 0 then b.nodes + [Close] else b.nodes
  }

  /** The nodes of one segment definition: a move to the outline's start, its
      steps, and the close. */
  function DefNodes(f: Font, diag: Correction, d: SegDef, ox: real, oy: real): seq<Node>
    requires f.height != 0.0
  {
    var o := SegmentOutline(f, diag, d, ox, oy);
    Closed(LineAll(f, Begin(f, oy, o.x, o.y), o.steps))
  }

  /** `get_segment_list`: the nodes of segment `n`, or none past the layout's end. */
  function SegmentNodes(f: Font, diag: Correction, n: nat, ox: real, oy: real): seq<Node>
    requires f.height != 0.0 || n >= |Defs(f.segments)|
  {
    var defs := Defs(f.segments);
    if n < |defs| then DefNodes(f, diag, defs[n], ox, oy) else []
  }

  /** Segment `i` is lit when its letter occurs in the names, or the names are "*". */
  predicate Selected(names: string, i: nat) {
    names == "*" || exists j :: 0 <= j < |names| && names[j] as int == 'A' as int + i
  }

  /** How many segments from index `i` on the names light and the layout has. */
  function Lit(f: Font, names: string, i: nat): nat
    decreases f.segments - i
  {
    if i >= f.segments then 0
    else (if Selected(names, i) && i < |Defs(f.segments)| then 1 else 0) + Lit(f, names, i + 1)
  }

  /** The segments from index `i` on, in index order. Only a lit segment of
      the layout reaches `_add`, so only then is the height divided by. */
  function NamedFrom(f: Font, diag: Correction, names: string, ox: real, oy: real, i: nat): seq<Node>
    requires f.height != 0.0 || Lit(f, names, i) == 0
    decreases f.segments - i
  {
    if i >= f.segments then []
    else (if Selected(names, i) then SegmentNodes(f, diag, i, ox, oy) else []) + NamedFrom(f, diag, names, ox, oy, i + 1)
  }

  /** `get_named_segments_list`. */
  function Named(f: Font, diag: Correction, names: string, ox: real, oy: real): seq<Node>
    requires f.height != 0.0 || Lit(f, names, 0) == 0
  {
    NamedFrom(f, diag, names, ox, oy, 0)
  }

  /** The names of the first entry for `c`, if any. */
  function Lookup(table: seq<Entry>, c: char): (r: Option<string>)
    ensures r.None? <==> forall i :: 0 <= i < |table| ==> table[i].c != c
    ensures r.Some? ==> exists i :: 0 <= i < |table| && table[i] == Entry(c, r.value)
                                    && forall j :: 0 <= j < i ==> table[j].c != c
  {
    if table == [] then None
    else if table[0].c == c then Some(table[0].names)
    else
      var r := Lookup(table[1..], c);
      if r.Some? then
        ghost var i :| 0 <= i < |table[1..]| && table[1..][i] == Entry(c, r.value)
                       && forall j :: 0 <= j < i ==> table[1..][j].c != c;
        assert table[i + 1] == Entry(c, r.value);
        assert forall j :: 0 <= j < i + 1 ==> table[j].c != c by {
          forall j | 0 <= j < i + 1 ensures table[j].c != c {
            if j > 0 {
              assert table[j] == table[1..][j - 1];
            }
          }
        }
        r
      else
        assert forall i :: 0 <= i < |table| ==> table[i].c != c by {
          forall i | 0 <= i < |table| ensures table[i].c != c {
            if i > 0 {
              assert table[i] == table[1..][i - 1];
            }
          }
        }
        r
  }

  predicate Layout(segments: int) {
    segments == 16 || segments == 14 || segments == 7
  }

  /** The exceptions `get_char_segments_list` can raise: indexing a missing
      `custom` (None), indexing past its end, and dividing by zero, either by
      a zero height in `_add` or by a zero sine in the diagonal correction. */
  datatype Fault = TypeError | IndexError | ZeroDivisionError

  /** Some lit segment of the layout is a singular diagonal. */
  predicate SingularLit(f: Font, diag: Correction, names: string) {
    exists k :: 0 <= k < f.segments && k < |Defs(f.segments)| && Selected(names, k) && Singular(f, diag, Defs(f.segments)[k])
  }

  /** `get_named_segments_list` as Python runs it: on a zero-height font the
      first lit segment raises in `_add`, and on any font a lit singular
      diagonal raises in its correction; with none lit the list stays empty. */
  function NamedOrRaise(f: Font, diag: Correction, names: string, ox: real, oy: real): (r: Result<seq<Node>, Fault>)
    ensures r.Err? ==> r.error == ZeroDivisionError && (f.height == 0.0 || SingularLit(f, diag, names))
  {
    if (f.height == 0.0 && Lit(f, names, 0) > 0) || SingularLit(f, diag, names) then Err(ZeroDivisionError)
    else Ok(Named(f, diag, names, ox, oy))
  }

  /** `get_char_segments_list`: a character up to 0x0F names its segments
      through `custom`; any other is looked up in the layout's table. */
  function CharSegments(f: Font, diag: Correction, c: char, custom: Option<seq<string>>, ox: real, oy: real): (r: Result<seq<Node>, Fault>)
    ensures !Layout(f.segments) ==> r == Ok([])
    ensures r == Err(TypeError) <==> Layout(f.segments) && c <= '\U{0F}' && custom.None?
    ensures r == Err(IndexError) <==> Layout(f.segments) && c <= '\U{0F}' && custom.Some? && c as int >= |custom.value|
    ensures r == Err(ZeroDivisionError) ==>
              f.height == 0.0 || exists k :: 0 <= k < |Defs(f.segments)| && Singular(f, diag, Defs(f.segments)[k])
  {
    if !Layout(f.segments) then Ok([])
    else if c <= '\U{0F}' then
      match custom
      case None => Err(TypeError)
      case Some(names) => if c as int < |names| then NamedOrRaise(f, diag, names[c as int], ox, oy) else Err(IndexError)
    else
      match Lookup(Table(f.segments), c)
      case Some(names) => NamedOrRaise(f, diag, names, ox, oy)
      case None => Ok([])
  }
}
