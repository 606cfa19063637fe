/** Stroke sequences (the node lists the segment and plotter fonts produce) and
    `add_shape`, which turns one into path commands placed and scaled on the page.

    On the wire a node is a Python list: `[[x, y]]` is a move, `[x, y]` a line and
    `[]` a close. `Value` models just enough of a Python value to state that format
    and the length dispatch `add_shape` performs on it.
 */
module Shapes {
  import opened PathCmd
  import opened Wrappers

  datatype Node = Move(x: real, y: real) | Line(x: real, y: real) | Close

  /** A Python number or list, as found in a shape. */
  datatype Value = Num(v: real) | List(items: seq<Value>)

  function Encode(n: Node): Value {
    match n
    case Move(x, y) => List([List([Num(x), Num(y)])])
    case Line(x, y) => List([Num(x), Num(y)])
    case Close => List([])
  }

  function EncodeAll(ns: seq<Node>): (r: seq<Value>)
    ensures |r| == |ns|
  {
    if ns == [] then [] else [Encode(ns[0])] + EncodeAll(ns[1..])
  }

  /** Where a node lands when the shape is drawn at (x, y) scaled by (sx, sy). */
  function Place(n: Node, x: real, y: real, sx: real, sy: real): Cmd {
    match n
    case Move(nx, ny) => MoveTo(x + nx * sx, y + ny * sy)
    case Line(nx, ny) => LineTo(x + nx * sx, y + ny * sy)
    case Close => ClosePath
  }

  function PlaceAll(ns: seq<Node>, x: real, y: real, sx: real, sy: real): (r: seq<Cmd>)
    ensures |r| == |ns|
    ensures forall i :: 0 <= i < |ns| ==> r[i] == Place(ns[i], x, y, sx, sy)
  {
    if ns == [] then [] else [Place(ns[0], x, y, sx, sy)] + PlaceAll(ns[1..], x, y, sx, sy)
  }

  /** The command `add_shape` emits for one wire node: a two-element list is a
      line-to, a one-element list a move-to (its first element holds the point),
      an empty list a close, and a longer list nothing at all. `None` is a value
      on which Python raises (a number where a list is needed, or the reverse). */
  function ShapeNodeCmds(node: Value, x: real, y: real, sx: real, sy: real): Option<seq<Cmd>> {
    match node
    case Num(_) => None
    case List(items) =>
      if |items| == 2 then
        (if items[0].Num? && items[1].Num?
         then Some([LineTo(x + items[0].v * sx, y + items[1].v * sy)])
         else None)
      else if |items| == 1 then
        (match items[0]
         case List(p) =>
           if |p| >= 2 && p[0].Num? && p[1].Num?
           then Some([MoveTo(x + p[0].v * sx, y + p[1].v * sy)])
           else None
         case Num(_) => None)
      else if |items| == 0 then Some([ClosePath])
      else Some([])
  }

  /** `add_shape`: the path for a whole shape, or `None` when Python would raise. */
  function AddShape(x: real, y: real, sx: real, sy: real, shape: seq<Value>): Option<seq<Cmd>> {
    if shape == [] then Some([])
    else
      match ShapeNodeCmds(shape[0], x, y, sx, sy)
      case None => None
      case Some(head) =>
        match AddShape(x, y, sx, sy, shape[1..])
        case None => None
        case Some(tail) => Some(head + tail)
  }

  /** Every node the fonts produce survives the wire format: `add_shape` of an
      encoded stroke sequence draws each node, in order, at its placed position. */
  lemma {:induction false} AddShapeOfEncoded(ns: seq<Node>, x: real, y: real, sx: real, sy: real)
    ensures AddShape(x, y, sx, sy, EncodeAll(ns)) == Some(PlaceAll(ns, x, y, sx, sy))
  {
    if ns != [] {
      assert EncodeAll(ns)[1..] == EncodeAll(ns[1..]);
      AddShapeOfEncoded(ns[1..], x, y, sx, sy);
      EncodeOne(ns[0], x, y, sx, sy);
    }
  }

  lemma EncodeOne(n: Node, x: real, y: real, sx: real, sy: real)
    ensures ShapeNodeCmds(Encode(n), x, y, sx, sy) == Some([Place(n, x, y, sx, sy)])
  {
    var r := ShapeNodeCmds(Encode(n), x, y, sx, sy);
    match n
    case Move(nx, ny) =>
      assert r.value[0] == MoveTo(x + nx * sx, y + ny * sy);
      assert r.value == [MoveTo(x + nx * sx, y + ny * sy)];
      assert Place(n, x, y, sx, sy) == MoveTo(x + nx * sx, y + ny * sy);
      assert r.Some?;
    case Line(nx, ny) =>
      assert r.value[0] == LineTo(x + nx * sx, y + ny * sy);
      assert r.value == [LineTo(x + nx * sx, y + ny * sy)];
      assert Place(n, x, y, sx, sy) == LineTo(x + nx * sx, y + ny * sy);
      assert r.Some?;
    case Close =>
  }

  /** The node-list invariant: a non-empty stroke sequence starts with a move,
      and a close never directly follows a move. */
  ghost predicate WellFormed(ns: seq<Node>) {
    && (ns != [] ==> ns[0].Move?)
    && forall i :: 0 < i < |ns| && ns[i].Close? ==> !ns[i - 1].Move?
  }
}
