/** The plotter font's glyph table: for each character from ' ' (0x20) to 0x89,
    its commands in the font's "octal 0QXY" notation, written `O(Q, X, Y)`: Q is 1
    for a move, 2 for the last command, 3 for both, 0 for a plain line; X and Y
    are grid digits 0..7. */
module PlotterTable {

  /** One command as written in the table, digit by digit. */
  datatype Octal = O(q: nat, x: nat, y: nat) {
    /** The command byte 0QXY (octal) the decoder reads. */
    function Byte(): nat {
      q * 64 + x * 8 + y
    }
  }

  /** A glyph has at least one command. */
  type Glyph = s: seq<Octal> | |s| > 0 witness [O(0, 0, 0)]

  /** A table row, checked to be non-empty where it is written. */
  function G(s: seq<Octal>): Glyph
    requires |s| > 0
  {
    s
  }

  /** Rows 0x20 .. 0x89, in sixteen-character blocks. */
  const Strokes: seq<Glyph> := Strokes2x + Strokes3x + Strokes4x + Strokes5x + Strokes6x + Strokes7x + Strokes8x


  const Strokes2x: seq<Glyph> := [
    G([O(3, 0, 0)]),  // ' '
    G([O(1, 2, 7), O(0, 2, 3), O(1, 2, 2), O(2, 2, 1)]),  // '!'
    G([O(1, 1, 7), O(0, 1, 6), O(1, 3, 7), O(2, 3, 6)]),  // '"'
    G([O(1, 1, 2), O(0, 1, 6), O(1, 3, 6), O(0, 3, 2), O(1, 4, 3), O(0, 0, 3), O(1, 0, 5), O(2, 4, 5)]),  // '#'
    G([O(0, 0, 3), O(0, 1, 2), O(0, 3, 2), O(0, 4, 3), O(0, 3, 4), O(0, 1, 4), O(0, 0, 5), O(0, 1, 6), O(0, 3, 6), O(0, 4, 5), O(1, 2, 1), O(0, 2, 7)]),  // '$'
    G([O(1, 0, 2), O(0, 4, 6), O(1, 1, 6), O(0, 0, 6), O(0, 0, 5), O(0, 1, 5), O(0, 1, 6), O(1, 3, 3), O(0, 4, 3), O(0, 4, 2), O(0, 3, 2), O(2, 3, 3)]),  // '%'
    G([O(1, 4, 1), O(0, 0, 5), O(0, 0, 6), O(0, 1, 7), O(0, 2, 6), O(0, 2, 5), O(0, 0, 3), O(0, 0, 2), O(0, 1, 1), O(0, 2, 1), O(2, 4, 3)]),  // '&'
    G([O(1, 2, 5), O(2, 2, 7)]),  // "'"
    G([O(1, 3, 1), O(0, 2, 1), O(0, 1, 2), O(0, 1, 6), O(0, 2, 7), O(2, 3, 7)]),  // '('
    G([O(1, 2, 1), O(0, 3, 1), O(0, 4, 2), O(0, 4, 6), O(0, 3, 7), O(2, 2, 7)]),  // ')'
    G([O(1, 0, 2), O(0, 4, 6), O(1, 0, 6), O(0, 4, 2), O(1, 2, 6), O(2, 2, 2)]),  // '*'
    G([O(1, 2, 2), O(0, 2, 6), O(1, 0, 4), O(2, 4, 4)]),  // '+'
    G([O(1, 2, 0), O(0, 3, 1), O(0, 3, 2), O(0, 2, 2), O(0, 2, 1), O(2, 3, 1)]),  // ','
    G([O(1, 0, 4), O(2, 4, 4)]),  // '-'
    G([O(1, 2, 1), O(0, 2, 2), O(0, 3, 2), O(0, 3, 1), O(2, 2, 1)]),  // '.'
    G([O(1, 0, 1), O(2, 5, 6)])  // '/'
  ]


  const Strokes3x: seq<Glyph> := [
    G([O(1, 0, 2), O(0, 4, 6), O(0, 3, 7), O(0, 1, 7), O(0, 0, 6), O(0, 0, 2), O(0, 1, 1), O(0, 3, 1), O(0, 4, 2), O(2, 4, 6)]),  // '0'
    G([O(1, 1, 6), O(0, 2, 7), O(0, 2, 1), O(1, 1, 1), O(2, 3, 1)]),  // '1'
    G([O(1, 0, 6), O(0, 1, 7), O(0, 3, 7), O(0, 4, 6), O(0, 4, 5), O(0, 0, 1), O(2, 4, 1)]),  // '2'
    G([O(1, 0, 6), O(0, 1, 7), O(0, 3, 7), O(0, 4, 6), O(0, 4, 5), O(0, 3, 4), O(0, 2, 4), O(1, 3, 4), O(0, 4, 3), O(0, 4, 2), O(0, 3, 1), O(0, 1, 1), O(2, 0, 2)]),  // '3'
    G([O(1, 3, 1), O(0, 3, 7), O(0, 0, 4), O(0, 0, 3), O(2, 4, 3)]),  // '4'
    G([O(1, 0, 2), O(0, 1, 1), O(0, 3, 1), O(0, 4, 2), O(0, 4, 4), O(0, 3, 5), O(0, 0, 5), O(0, 0, 7), O(2, 4, 7)]),  // '5'
    G([O(1, 0, 4), O(0, 1, 5), O(0, 3, 5), O(0, 4, 4), O(0, 4, 2), O(0, 3, 1), O(0, 1, 1), O(0, 0, 2), O(0, 0, 6), O(0, 1, 7), O(0, 3, 7), O(2, 4, 6)]),  // '6'
    G([O(1, 0, 1), O(0, 4, 5), O(0, 4, 7), O(2, 0, 7)]),  // '7'
    G([O(1, 1, 4), O(0, 0, 5), O(0, 0, 6), O(0, 1, 7), O(0, 3, 7), O(0, 4, 6), O(0, 4, 5), O(0, 3, 4), O(0, 4, 3), O(0, 4, 2), O(0, 3, 1), O(0, 1, 1), O(0, 0, 2), O(0, 0, 3), O(0, 1, 4), O(2, 3, 4)]),  // '8'
    G([O(1, 0, 2), O(0, 1, 1), O(0, 3, 1), O(0, 4, 2), O(0, 4, 6), O(0, 3, 7), O(0, 1, 7), O(0, 0, 6), O(0, 0, 5), O(0, 1, 4), O(0, 3, 4), O(2, 4, 5)]),  // '9'
    G([O(1, 1, 2), O(0, 1, 3), O(0, 2, 3), O(0, 2, 2), O(0, 1, 2), O(1, 1, 5), O(0, 1, 6), O(0, 2, 6), O(0, 2, 5), O(2, 1, 5)]),  // ':'
    G([O(1, 1, 1), O(0, 2, 2), O(0, 2, 3), O(0, 1, 3), O(0, 1, 2), O(0, 2, 2), O(1, 2, 5), O(0, 2, 6), O(0, 1, 6), O(0, 1, 5), O(2, 2, 5)]),  // ';'
    G([O(1, 4, 1), O(0, 1, 4), O(2, 4, 7)]),  // '<'
    G([O(1, 0, 3), O(0, 4, 3), O(1, 0, 5), O(2, 4, 5)]),  // '='
    G([O(1, 1, 1), O(0, 4, 4), O(2, 1, 7)]),  // '>'
    G([O(1, 0, 6), O(0, 1, 7), O(0, 3, 7), O(0, 4, 6), O(0, 4, 5), O(0, 3, 4), O(0, 2, 4), O(0, 2, 3), O(1, 2, 2), O(2, 2, 1)])  // '?'
  ]


  const Strokes4x: seq<Glyph> := [
    G([O(1, 3, 3), O(0, 3, 5), O(0, 1, 5), O(0, 1, 2), O(0, 3, 2), O(0, 4, 3), O(0, 4, 5), O(0, 3, 6), O(0, 1, 6), O(0, 0, 5), O(0, 0, 2), O(0, 1, 1), O(2, 4, 1)]),  // '@'
    G([O(1, 0, 1), O(0, 0, 5), O(0, 2, 7), O(0, 4, 5), O(0, 4, 1), O(1, 0, 4), O(2, 4, 4)]),  // 'A'
    G([O(1, 0, 1), O(0, 0, 7), O(0, 3, 7), O(0, 4, 6), O(0, 4, 5), O(0, 3, 4), O(1, 0, 4), O(0, 3, 4), O(0, 4, 3), O(0, 4, 2), O(0, 3, 1), O(2, 0, 1)]),  // 'B'
    G([O(1, 4, 2), O(0, 3, 1), O(0, 1, 1), O(0, 0, 2), O(0, 0, 6), O(0, 1, 7), O(0, 3, 7), O(2, 4, 6)]),  // 'C'
    G([O(1, 0, 1), O(0, 0, 7), O(0, 3, 7), O(0, 4, 6), O(0, 4, 2), O(0, 3, 1), O(2, 0, 1)]),  // 'D'
    G([O(1, 4, 1), O(0, 0, 1), O(0, 0, 7), O(0, 4, 7), O(1, 3, 4), O(2, 0, 4)]),  // 'E'
    G([O(1, 0, 1), O(0, 0, 7), O(0, 4, 7), O(1, 0, 4), O(2, 3, 4)]),  // 'F'
    G([O(1, 4, 6), O(0, 3, 7), O(0, 1, 7), O(0, 0, 6), O(0, 0, 2), O(0, 1, 1), O(0, 4, 1), O(0, 4, 4), O(2, 2, 4)]),  // 'G'
    G([O(1, 0, 1), O(0, 0, 7), O(1, 4, 7), O(0, 4, 1), O(1, 0, 4), O(2, 4, 4)]),  // 'H'
    G([O(1, 0, 1), O(0, 4, 1), O(1, 2, 1), O(0, 2, 7), O(1, 0, 7), O(2, 4, 7)]),  // 'I'
    G([O(1, 0, 2), O(0, 1, 1), O(0, 2, 1), O(0, 3, 2), O(2, 3, 7)]),  // 'J'
    G([O(1, 0, 1), O(0, 0, 7), O(1, 4, 7), O(0, 0, 3), O(1, 1, 4), O(2, 4, 1)]),  // 'K'
    G([O(1, 0, 7), O(0, 0, 1), O(2, 4, 1)]),  // 'L'
    G([O(1, 0, 1), O(0, 0, 7), O(0, 2, 5), O(0, 2, 4), O(0, 2, 5), O(0, 4, 7), O(2, 4, 1)]),  // 'M'
    G([O(1, 0, 1), O(0, 0, 7), O(1, 0, 6), O(0, 4, 2), O(1, 4, 7), O(2, 4, 1)]),  // 'N'
    G([O(1, 0, 2), O(0, 0, 6), O(0, 1, 7), O(0, 3, 7), O(0, 4, 6), O(0, 4, 2), O(0, 3, 1), O(0, 1, 1), O(2, 0, 2)])  // 'O'
  ]


  const Strokes5x: seq<Glyph> := [
    G([O(1, 0, 1), O(0, 0, 7), O(0, 3, 7), O(0, 4, 6), O(0, 4, 5), O(0, 3, 4), O(2, 0, 4)]),  // 'P'
    G([O(1, 2, 3), O(0, 4, 1), O(1, 3, 1), O(0, 1, 1), O(0, 0, 2), O(0, 0, 6), O(0, 1, 7), O(0, 3, 7), O(0, 4, 6), O(0, 4, 2), O(2, 3, 1)]),  // 'Q'
    G([O(1, 0, 1), O(0, 0, 7), O(0, 3, 7), O(0, 4, 6), O(0, 4, 5), O(0, 3, 4), O(0, 0, 4), O(1, 1, 4), O(2, 4, 1)]),  // 'R'
    G([O(1, 0, 2), O(0, 1, 1), O(0, 3, 1), O(0, 4, 2), O(0, 4, 3), O(0, 3, 4), O(0, 1, 4), O(0, 0, 5), O(0, 0, 6), O(0, 1, 7), O(0, 3, 7), O(2, 4, 6)]),  // 'S'
    G([O(1, 2, 1), O(0, 2, 7), O(1, 0, 7), O(2, 4, 7)]),  // 'T'
    G([O(1, 0, 7), O(0, 0, 2), O(0, 1, 1), O(0, 3, 1), O(0, 4, 2), O(2, 4, 7)]),  // 'U'
    G([O(1, 0, 7), O(0, 0, 3), O(0, 2, 1), O(0, 4, 3), O(2, 4, 7)]),  // 'V'
    G([O(1, 0, 7), O(0, 0, 1), O(0, 2, 3), O(1, 2, 4), O(0, 2, 3), O(0, 4, 1), O(2, 4, 7)]),  // 'W'
    G([O(1, 0, 1), O(0, 0, 2), O(0, 4, 6), O(0, 4, 7), O(1, 0, 7), O(0, 0, 6), O(0, 4, 2), O(2, 4, 1)]),  // 'X'
    G([O(1, 2, 1), O(0, 2, 4), O(0, 4, 6), O(0, 4, 7), O(1, 0, 7), O(0, 0, 6), O(2, 2, 4)]),  // 'Y'
    G([O(1, 0, 7), O(0, 4, 7), O(0, 4, 6), O(0, 0, 2), O(0, 0, 1), O(2, 4, 1)]),  // 'Z'
    G([O(1, 2, 1), O(0, 0, 1), O(0, 0, 7), O(2, 2, 7)]),  // '['
    G([O(0, 0, 6), O(0, 5, 1)]),  // '\\'
    G([O(1, 1, 1), O(0, 3, 1), O(0, 3, 7), O(2, 1, 7)]),  // ']'
    G([O(0, 1, 5), O(0, 2, 7), O(0, 3, 5)]),  // '^'
    G([O(0, 0, 0), O(0, 6, 0)])  // '_'
  ]


  const Strokes6x: seq<Glyph> := [
    G([O(0, 3, 5), O(0, 2, 7)]),  // '`'
    G([O(1, 3, 2), O(0, 2, 1), O(0, 1, 1), O(0, 0, 2), O(0, 0, 3), O(0, 1, 4), O(0, 2, 4), O(0, 3, 3), O(1, 0, 5), O(0, 2, 5), O(0, 3, 4), O(0, 3, 2), O(2, 4, 1)]),  // 'a'
    G([O(1, 0, 7), O(0, 0, 1), O(0, 2, 1), O(0, 3, 2), O(0, 3, 4), O(0, 2, 5), O(2, 0, 5)]),  // 'b'
    G([O(1, 3, 2), O(0, 2, 1), O(0, 1, 1), O(0, 0, 2), O(0, 0, 4), O(0, 1, 5), O(0, 2, 5), O(2, 3, 4)]),  // 'c'
    G([O(1, 3, 5), O(0, 1, 5), O(0, 0, 4), O(0, 0, 2), O(0, 1, 1), O(0, 3, 1), O(2, 3, 7)]),  // 'd'
    G([O(1, 0, 3), O(0, 3, 3), O(0, 3, 4), O(0, 2, 5), O(0, 1, 5), O(0, 0, 4), O(0, 0, 2), O(0, 1, 1), O(2, 3, 1)]),  // 'e'
    G([O(1, 2, 1), O(0, 2, 7), O(0, 3, 7), O(1, 1, 4), O(2, 3, 4)]),  // 'f'
    G([O(1, 0, 1), O(0, 1, 0), O(0, 2, 0), O(0, 3, 1), O(0, 3, 4), O(0, 2, 5), O(0, 1, 5), O(0, 0, 4), O(0, 0, 3), O(0, 1, 2), O(0, 2, 2), O(2, 3, 3)]),  // 'g'
    G([O(1, 0, 1), O(0, 0, 7), O(1, 0, 5), O(0, 2, 5), O(0, 3, 4), O(2, 3, 1)]),  // 'h'
    G([O(1, 1, 1), O(0, 1, 4), O(1, 1, 5), O(2, 1, 6)]),  // 'i'
    G([O(1, 0, 1), O(0, 1, 0), O(0, 2, 0), O(0, 3, 1), O(0, 3, 4), O(1, 3, 5), O(2, 3, 6)]),  // 'j'
    G([O(1, 3, 1), O(0, 1, 3), O(1, 0, 7), O(0, 0, 1), O(1, 0, 2), O(2, 3, 5)]),  // 'k'
    G([O(1, 1, 7), O(0, 1, 1), O(2, 2, 1)]),  // 'l'
    G([O(1, 0, 1), O(0, 0, 5), O(1, 0, 4), O(0, 1, 5), O(0, 2, 4), O(0, 2, 1), O(1, 2, 4), O(0, 3, 5), O(0, 4, 4), O(2, 4, 1)]),  // 'm'
    G([O(1, 0, 1), O(0, 0, 5), O(0, 0, 4), O(0, 1, 5), O(0, 2, 5), O(0, 3, 4), O(2, 3, 1)]),  // 'n'
    G([O(1, 0, 2), O(0, 0, 4), O(0, 1, 5), O(0, 2, 5), O(0, 3, 4), O(0, 3, 2), O(0, 2, 1), O(0, 1, 1), O(2, 0, 2)])  // 'o'
  ]


  const Strokes7x: seq<Glyph> := [
    G([O(1, 0, 2), O(0, 2, 2), O(0, 3, 3), O(0, 3, 4), O(0, 2, 5), O(0, 0, 5), O(2, 0, 0)]),  // 'p'
    G([O(1, 4, 0), O(0, 3, 0), O(0, 3, 5), O(0, 1, 5), O(0, 0, 4), O(0, 0, 3), O(0, 1, 2), O(2, 3, 2)]),  // 'q'
    G([O(1, 0, 5), O(0, 1, 4), O(0, 1, 1), O(1, 1, 4), O(0, 2, 5), O(2, 3, 5)]),  // 'r'
    G([O(1, 0, 2), O(0, 1, 1), O(0, 2, 1), O(0, 3, 2), O(0, 2, 3), O(0, 1, 3), O(0, 0, 4), O(0, 1, 5), O(0, 2, 5), O(2, 3, 4)]),  // 's'
    G([O(1, 0, 5), O(0, 2, 5), O(1, 1, 7), O(0, 1, 1), O(2, 2, 1)]),  // 't'
    G([O(0, 0, 5), O(0, 0, 2), O(0, 1, 1), O(0, 2, 1), O(0, 3, 2), O(1, 3, 1), O(0, 3, 5)]),  // 'u'
    G([O(1, 0, 5), O(0, 0, 3), O(0, 2, 1), O(0, 4, 3), O(2, 4, 5)]),  // 'v'
    G([O(1, 0, 5), O(0, 0, 2), O(0, 1, 1), O(0, 2, 2), O(0, 2, 3), O(0, 2, 2), O(0, 3, 1), O(0, 4, 2), O(2, 4, 5)]),  // 'w'
    G([O(1, 0, 1), O(0, 4, 5), O(1, 0, 5), O(2, 4, 1)]),  // 'x'
    G([O(1, 0, 5), O(0, 0, 4), O(0, 2, 2), O(1, 4, 5), O(0, 4, 4), O(2, 0, 0)]),  // 'y'
    G([O(1, 0, 5), O(0, 4, 5), O(0, 0, 1), O(2, 4, 1)]),  // 'z'
    G([O(0, 3, 1), O(0, 2, 1), O(0, 1, 2), O(0, 1, 3), O(0, 0, 4), O(0, 1, 5), O(0, 1, 6), O(0, 2, 7), O(0, 3, 7)]),  // '{'
    G([O(0, 2, 1), O(0, 2, 7)]),  // '|'
    G([O(1, 2, 1), O(0, 3, 1), O(0, 4, 2), O(0, 4, 3), O(0, 5, 4), O(0, 4, 5), O(0, 4, 6), O(0, 3, 7), O(2, 2, 7)]),  // '}'
    G([O(0, 1, 6), O(0, 2, 7), O(0, 3, 6), O(0, 4, 7)]),  // '~'
    G([O(0, 0, 0)])  // DEL
  ]


  const Strokes8x: seq<Glyph> := [
    G([O(0, 5, 0), O(0, 7, 2), O(0, 7, 4), O(0, 5, 6), O(0, 3, 6), O(0, 1, 4), O(0, 1, 7), O(1, 1, 4), O(0, 4, 4)]),  // 0x80
    G([O(0, 5, 2), O(0, 4, 1), O(0, 2, 1), O(0, 0, 3), O(0, 0, 5), O(0, 2, 7), O(0, 4, 7), O(0, 5, 6), O(1, 3, 6), O(0, 3, 2), O(1, 1, 4), O(0, 7, 4)]),  // 0x81
    G([O(0, 2, 0), O(0, 0, 2), O(0, 0, 4), O(0, 2, 6), O(0, 4, 6), O(0, 6, 4), O(1, 3, 4), O(0, 6, 4), O(0, 6, 7)]),  // 0x82
    G([O(1, 5, 6), O(0, 4, 6), O(0, 3, 5), O(0, 3, 2), O(0, 2, 1), O(0, 1, 1), O(0, 0, 2), O(0, 1, 3), O(0, 3, 1), O(0, 5, 1), O(1, 2, 4), O(2, 4, 4)]),  // 0x83
    G([O(1, 2, 1), O(0, 2, 6), O(1, 0, 4), O(0, 2, 6), O(2, 4, 4)]),  // 0x84
    G([O(1, 2, 2), O(0, 0, 4), O(0, 2, 6), O(1, 0, 4), O(2, 5, 4)]),  // 0x85
    G([O(1, 0, 4), O(2, 7, 4)]),  // 0x86
    G([O(1, 2, 1), O(0, 2, 6), O(1, 0, 3), O(0, 2, 1), O(2, 4, 3)]),  // 0x87
    G([O(1, 3, 2), O(0, 5, 4), O(0, 3, 6), O(1, 5, 4), O(2, 0, 4)]),  // 0x88
    G([O(1, 2, 2), O(0, 0, 4), O(0, 2, 6), O(1, 4, 2), O(0, 6, 4), O(0, 4, 6), O(1, 6, 4), O(2, 0, 4)])  // 0x89
  ]
}
