/** `PlotterFont.get_char_shape`: decode one character of the plotter font into a
    stroke sequence on the 8x8 grid. */
module Plotter {
  import opened Shapes
  import opened PlotterTable

  /** The font's nominal sizes: line pitch, glyph height and advance width. */
  const Size: real := 7.0
  const StdHeight: real := 5.0
  const StdWidth: real := 5.0

  /** The fields of one command byte: x in bits 3..5, y in bits 0..2, and the
      move tag in bit 6 (Q = 1 or 3). Bit 7 (the "last" tag) is never read. */
  function CmdX(cmd: nat): (x: nat)
    ensures x <= 7
  {
    (cmd / 8) % 8
  }

  function CmdY(cmd: nat): (y: nat)
    ensures y <= 7
  {
    cmd % 8
  }

  predicate MoveTagged(cmd: nat) {
    (cmd / 64) % 2 == 1
  }

  /** The point a command names, with x sheared by `slant` times y. */
  function CmdPoint(cmd: nat, slant: real): (real, real) {
    (CmdX(cmd) as real + slant * CmdY(cmd) as real, CmdY(cmd) as real)
  }

  /** What the node for command `i` is, read off the command list directly: a
      move when it is the first command or carries the move tag, otherwise a line. */
  function NodeAt(cmds: seq<nat>, i: nat, slant: real): Node
    requires i < |cmds|
  {
    var p := CmdPoint(cmds[i], slant);
    if i == 0 || MoveTagged(cmds[i]) then Move(p.0, p.1) else Line(p.0, p.1)
  }

  /** The decoding loop: one node per command, appended in order; a command is a
      move when tagged so or when the shape built so far is still empty. */
  function Decode(cmds: seq<nat>, slant: real): (shape: seq<Node>)
    ensures |shape| == |cmds|
    ensures forall i :: 0 <= i < |cmds| ==> shape[i] == NodeAt(cmds, i, slant)
  {
    if cmds == [] then []
    else
      var prefix := Decode(cmds[..|cmds| - 1], slant);
      var c := cmds[|cmds| - 1];
      var p := CmdPoint(c, slant);
      prefix + [if MoveTagged(c) || prefix == [] then Move(p.0, p.1) else Line(p.0, p.1)]
  }

  /** The command bytes of a table row. */
  function Bytes(row: seq<Octal>): (cmds: seq<nat>)
    ensures |cmds| == |row|
    ensures forall i :: 0 <= i < |row| ==> cmds[i] == row[i].Byte()
  {
    if row == [] then [] else [row[0].Byte()] + Bytes(row[1..])
  }

  /** `get_char_shape`: the decoded glyph, or nothing for a character outside
      ' ' .. ' ' + |Strokes| - 1. */
  function CharShape(c: char, slant: real): (shape: seq<Node>)
    ensures shape != [] <==> 0x20 <= c as int <= 0x89
    ensures 0x20 <= c as int <= 0x89 ==> |shape| == |Strokes[c as int - 0x20]|
    ensures 0x20 <= c as int <= 0x89 ==>
              forall i :: 0 <= i < |shape| ==> shape[i] == NodeAt(Bytes(Strokes[c as int - 0x20]), i, slant)
    ensures WellFormed(shape)
  {
    assert |Strokes| == 0x89 - 0x20 + 1;
    var idx := c as int - 32;
    if 0 <= idx < |Strokes| then Decode(Bytes(Strokes[idx]), slant) else []
  }

  /** A character has a shape exactly when it lies in ' ' .. 0x89, and then the
      shape has one node per table command: every entry is non-empty. */
  lemma ShapeIffInTable(c: char, slant: real)
    ensures CharShape(c, slant) != [] <==> 0x20 <= c as int <= 0x89
    ensures 0x20 <= c as int <= 0x89 ==> |CharShape(c, slant)| == |Strokes[c as int - 0x20]|
  {
    assert |Strokes| == 0x89 - 0x20 + 1;
  }

  /** The first node is a move even when the first command is tagged as a line,
      and the shape never contains a close. */
  lemma ShapeWellFormed(c: char, slant: real)
    ensures CharShape(c, slant) != [] ==> CharShape(c, slant)[0].Move?
    ensures forall i :: 0 <= i < |CharShape(c, slant)| ==> !CharShape(c, slant)[i].Close?
    ensures WellFormed(CharShape(c, slant))
  {
  }

  /** Bit 7, the "last command" tag, never changes the decoded shape. */
  function WithLastTag(cmd: nat, last: bool): nat {
    cmd % 128 + (if last then 128 else 0) + (cmd / 256) * 256
  }

  lemma {:induction false} LastTagIgnored(cmds: seq<nat>, tags: seq<bool>, slant: real)
    requires |tags| == |cmds|
    ensures Decode(seq(|cmds|, i requires 0 <= i < |cmds| => WithLastTag(cmds[i], tags[i])), slant)
         == Decode(cmds, slant)
  {
    var tagged := seq(|cmds|, i requires 0 <= i < |cmds| => WithLastTag(cmds[i], tags[i]));
    forall i | 0 <= i < |cmds|
      ensures NodeAt(tagged, i, slant) == NodeAt(cmds, i, slant)
    {
      FieldsIgnoreLastTag(cmds[i], tags[i]);
      SameFields(tagged, cmds, i, slant);
    }
    DecodePointwise(tagged, cmds, slant);
  }

  /** Commands with the same fields give the same node. */
  lemma SameFields(a: seq<nat>, b: seq<nat>, i: nat, slant: real)
    requires i < |a| == |b|
    requires CmdX(a[i]) == CmdX(b[i]) && CmdY(a[i]) == CmdY(b[i]) && MoveTagged(a[i]) == MoveTagged(b[i])
    ensures NodeAt(a, i, slant) == NodeAt(b, i, slant)
  {
  }

  /** Command lists whose nodes agree one by one decode alike. */
  lemma DecodePointwise(a: seq<nat>, b: seq<nat>, slant: real)
    requires |a| == |b|
    requires forall i :: 0 <= i < |a| ==> NodeAt(a, i, slant) == NodeAt(b, i, slant)
    ensures Decode(a, slant) == Decode(b, slant)
  {
    assert forall i :: 0 <= i < |a| ==> Decode(a, slant)[i] == Decode(b, slant)[i];
  }

  lemma FieldsIgnoreLastTag(cmd: nat, last: bool)
    ensures CmdX(WithLastTag(cmd, last)) == CmdX(cmd)
    ensures CmdY(WithLastTag(cmd, last)) == CmdY(cmd)
    ensures MoveTagged(WithLastTag(cmd, last)) == MoveTagged(cmd)
  {
    var lo := cmd % 128;
    var b := if last then 1 else 0;
    assert WithLastTag(cmd, last) == lo + 128 * (b + 2 * (cmd / 256));
    assert cmd == lo + 128 * (cmd / 128);
    LowFieldsOnly(lo, b + 2 * (cmd / 256));
    LowFieldsOnly(lo, cmd / 128);
  }

  /** The fields the decoder reads live in the low seven bits. */
  lemma LowFieldsOnly(lo: nat, m: nat)
    requires lo < 128
    ensures CmdX(lo + 128 * m) == CmdX(lo)
    ensures CmdY(lo + 128 * m) == CmdY(lo)
    ensures MoveTagged(lo + 128 * m) == MoveTagged(lo)
  {
    var v := lo + 128 * m;
    DivMod(8, lo / 8 + 16 * m, lo % 8);
    DivMod(8, lo / 8, lo % 8);
    DivMod(64, lo / 64 + 2 * m, lo % 64);
    DivMod(64, lo / 64, lo % 64);
    ShiftMod(lo / 8, 2 * m, 8);
    ShiftMod(lo / 64, m, 2);
  }

  lemma DivMod(d: nat, q: nat, r: nat)
    requires d == 8 || d == 64
    requires r < d
    ensures (d * q + r) / d == q && (d * q + r) % d == r
  {
  }

  lemma ShiftMod(a: nat, m: nat, d: nat)
    requires d == 8 || d == 2
    ensures (a + d * m) % d == a % d
  {
  }

  /** Without slant every point is a grid point: whole numbers 0..7. */
  lemma UnslantedOnGrid(c: char)
    ensures forall i :: 0 <= i < |CharShape(c, 0.0)| ==>
      var n := CharShape(c, 0.0)[i];
      !n.Close? && 0.0 <= n.x <= 7.0 && 0.0 <= n.y <= 7.0 && n.x.Floor as real == n.x && n.y.Floor as real == n.y
  {
  }

  /** A command whose x and y fields are zero names the origin, whatever the slant. */
  lemma OriginCommand(cmd: nat, slant: real)
    requires cmd % 64 == 0
    ensures CmdPoint(cmd, slant) == (0.0, 0.0)
  {
    assert cmd == 64 * (cmd / 64);
    DivMod(8, 8 * (cmd / 64), 0);
    assert CmdX(cmd) == (8 * (cmd / 64)) % 8;
    ShiftMod(0, cmd / 64, 8);
  }

  /** A one-command glyph at the origin decodes to a single move there. */
  lemma SingleOriginDecode(cmd: nat, slant: real)
    requires cmd % 64 == 0
    ensures Decode([cmd], slant) == [Move(0.0, 0.0)]
  {
    OriginCommand(cmd, slant);
    assert NodeAt([cmd], 0, slant) == Move(0.0, 0.0);
  }

  /** Space and DEL both decode to a single invisible move to the origin. */
  lemma SpaceAndDelAreBlank(slant: real)
    ensures CharShape(' ', slant) == [Move(0.0, 0.0)]
    ensures CharShape('\U{7F}', slant) == [Move(0.0, 0.0)]
  {
    SpaceBlank(slant);
    DelBlank(slant);
  }

  lemma SpaceBlank(slant: real)
    ensures CharShape(' ', slant) == [Move(0.0, 0.0)]
  {
    SpaceRow();
    BlankRow(' ', slant, 192);
  }

  lemma DelBlank(slant: real)
    ensures CharShape('\U{7F}', slant) == [Move(0.0, 0.0)]
  {
    DelRow();
    BlankRow('\U{7F}', slant, 0);
  }

  /** A row of one command at the origin is a single move there. */
  lemma BlankRow(c: char, slant: real, cmd: nat)
    requires 0x20 <= c as int <= 0x89
    requires Bytes(Strokes[c as int - 0x20]) == [cmd] && cmd % 64 == 0
    ensures CharShape(c, slant) == [Move(0.0, 0.0)]
  {
    SingleOriginDecode(cmd, slant);
    assert CharShape(c, slant)[0] == NodeAt([cmd], 0, slant);
  }

  lemma SpaceRow()
    ensures Bytes(Strokes[0]) == [192]
  {
    assert Strokes[0] == [O(3, 0, 0)];
  }

  lemma DelRow()
    ensures Bytes(Strokes[95]) == [0]
  {
    assert Strokes[95] == [O(0, 0, 0)];
  }
}
