/** The segment font's tables: where each segment lies on the 2x2 character
    grid, and which segments each character lights, for the 16-, 14- and
    7-segment layouts.

    Segments are named 'A', 'B', ... in index order. On the 16-segment layout
    A and B are the top halves, C..G the upper verticals and diagonals, H and I
    the middle halves, J..N the lower verticals and diagonals and O, P the bottom
    halves; the 14-segment layout has whole top (A) and bottom (N) bars; the
    7-segment layout is A top, B and C upper left and right, D middle, E and F
    lower left and right, G bottom.
 */
module NSegmentTable {

  /** A segment from grid point (x0, y0) (half-units of the character) spanning
      (dx, dy) half-units; `square` asks for a square cap on a vertical. */
  datatype SegDef = SegDef(x0: int, y0: int, dx: int, dy: int, square: bool)

  /** A character and the names of the segments it lights. */
  datatype Entry = Entry(c: char, names: string)

  const Defs16: seq<SegDef> := [
    SegDef(0, 2, 1, 0, false),
    SegDef(1, 2, 1, 0, false),
    SegDef(0, 1, 0, 1, false),
    SegDef(0, 1, 1, 1, false),
    SegDef(1, 1, 0, 1, false),
    SegDef(2, 1, -1, 1, false),
    SegDef(2, 1, 0, 1, false),
    SegDef(0, 1, 1, 0, false),
    SegDef(1, 1, 1, 0, false),
    SegDef(0, 0, 0, 1, false),
    SegDef(0, 1, 1, -1, false),
    SegDef(1, 0, 0, 1, false),
    SegDef(2, 1, -1, -1, false),
    SegDef(2, 0, 0, 1, false),
    SegDef(0, 0, 1, 0, false),
    SegDef(1, 0, 1, 0, false)]

  const Defs14: seq<SegDef> := [
    SegDef(0, 2, 2, 0, false),
    SegDef(0, 1, 0, 1, false),
    SegDef(0, 1, 1, 1, false),
    SegDef(1, 1, 0, 1, true),
    SegDef(2, 1, -1, 1, false),
    SegDef(2, 1, 0, 1, false),
    SegDef(0, 1, 1, 0, false),
    SegDef(1, 1, 1, 0, false),
    SegDef(0, 0, 0, 1, false),
    SegDef(0, 1, 1, -1, false),
    SegDef(1, 1, 0, -1, true),
    SegDef(2, 1, -1, -1, false),
    SegDef(2, 0, 0, 1, false),
    SegDef(0, 0, 2, 0, false)]

  const Defs7: seq<SegDef> := [
    SegDef(0, 2, 2, 0, false),
    SegDef(0, 1, 0, 1, false),
    SegDef(2, 1, 0, 1, false),
    SegDef(0, 1, 2, 0, false),
    SegDef(0, 0, 0, 1, false),
    SegDef(2, 0, 0, 1, false),
    SegDef(0, 0, 2, 0, false)]

  /** The 16-segment font: 'A'..'Z', '*', '-', '+', '0'..'9'. */
  const Font16: seq<Entry> := Font16a + Font16b + Font16c

  const Font16a: seq<Entry> := [
    Entry('A', "ABCGHIJN"),
    Entry('B', "ABEGILNOP"),
    Entry('C', "ABCJOP"),
    Entry('D', "ABEGLNOP"),
    Entry('E', "ABCHIJOP"),
    Entry('F', "ABCHIJ"),
    Entry('G', "ABCIJNOP"),
    Entry('H', "CGHIJN"),
    Entry('I', "ABELOP"),
    Entry('J', "GJNOP"),
    Entry('K', "CFHJM"),
    Entry('L', "CJOP"),
    Entry('M', "CDFGJN"),
    Entry('N', "CDGJMN"),
    Entry('O', "ABCGJNOP"),
    Entry('P', "ABCGHIJ")]

  const Font16b: seq<Entry> := [
    Entry('Q', "ABCGJMNOP"),
    Entry('R', "ABCGHIJM"),
    Entry('S', "ABCHINOP"),
    Entry('T', "ABEL"),
    Entry('U', "CGJNOP"),
    Entry('V', "CFJK"),
    Entry('W', "CGJKMN"),
    Entry('X', "DFKM"),
    Entry('Y', "DFL"),
    Entry('Z', "ABFKOP"),
    Entry('*', "DEFHIKLM"),
    Entry('-', "HI"),
    Entry('+', "EHIL"),
    Entry('0', "ABCGJNOP"),
    Entry('1', "GN"),
    Entry('2', "ABGHIJOP")]

  const Font16c: seq<Entry> := [
    Entry('3', "ABGHINOP"),
    Entry('4', "CGHIN"),
    Entry('5', "ABCHINOP"),
    Entry('6', "ABCHIJNOP"),
    Entry('7', "ABGN"),
    Entry('8', "ABCGHIJNOP"),
    Entry('9', "ABCGHINOP")]

  /** The 14-segment font: the same characters as the 16-segment one. */
  const Font14: seq<Entry> := Font14a + Font14b + Font14c

  const Font14a: seq<Entry> := [
    Entry('A', "ABFGHIM"),
    Entry('B', "ADFHKMN"),
    Entry('C', "ABIN"),
    Entry('D', "ADFKMN"),
    Entry('E', "ABGHIN"),
    Entry('F', "ABGHI"),
    Entry('G', "ABHIMN"),
    Entry('H', "BFGHIM"),
    Entry('I', "ADKN"),
    Entry('J', "FIMN"),
    Entry('K', "BEGIL"),
    Entry('L', "BIN"),
    Entry('M', "BCEFIM"),
    Entry('N', "BCFILM"),
    Entry('O', "ABFIMN"),
    Entry('P', "ABFGHI")]

  const Font14b: seq<Entry> := [
    Entry('Q', "ABFILMN"),
    Entry('R', "ABFGHIL"),
    Entry('S', "ABGHMN"),
    Entry('T', "ADK"),
    Entry('U', "BFIMN"),
    Entry('V', "BEIJ"),
    Entry('W', "BFIJLM"),
    Entry('X', "CEJL"),
    Entry('Y', "CEK"),
    Entry('Z', "AEJN"),
    Entry('*', "CDEGHJKL"),
    Entry('-', "GH"),
    Entry('+', "DGHK"),
    Entry('0', "ABFIMN"),
    Entry('1', "FM"),
    Entry('2', "AFGHIN")]

  const Font14c: seq<Entry> := [
    Entry('3', "AFGHMN"),
    Entry('4', "BFGHM"),
    Entry('5', "ABGHMN"),
    Entry('6', "ABGHIMN"),
    Entry('7', "AFM"),
    Entry('8', "ABFGHIMN"),
    Entry('9', "ABFGHMN")]

  /** The 7-segment font in use (not the unused earlier table). */
  const Font7: seq<Entry> := Font7a + Font7b + Font7c + Font7d + Font7e

  const Font7a: seq<Entry> := [
    Entry(' ', ""),
    Entry('\"', "CB"),
    Entry('-', "D"),
    Entry('0', "ACFGEB"),
    Entry('1', "CF"),
    Entry('2', "ACGED"),
    Entry('3', "ACFGD"),
    Entry('4', "CFBD"),
    Entry('5', "AFGBD"),
    Entry('6', "AFGEBD"),
    Entry('7', "ACF"),
    Entry('8', "ACFGEBD"),
    Entry('9', "ACFGBD"),
    Entry('=', "GD"),
    Entry('A', "ACFEBD"),
    Entry('B', "ACFGEBD")]

  const Font7b: seq<Entry> := [
    Entry('C', "AGEB"),
    Entry('D', "ACFGE"),
    Entry('E', "AGEBD"),
    Entry('F', "AEBD"),
    Entry('G', "AFGEB"),
    Entry('H', "CFEBD"),
    Entry('I', "CF"),
    Entry('J', "CFGE"),
    Entry('K', "CGEBD"),
    Entry('L', "GEB"),
    Entry('M', "AFE"),
    Entry('N', "ACFEB"),
    Entry('O', "ACFGEB"),
    Entry('P', "ACEBD"),
    Entry('Q', "ACGBD"),
    Entry('R', "ACEB")]

  const Font7c: seq<Entry> := [
    Entry('S', "AFGBD"),
    Entry('T', "ACF"),
    Entry('U', "CFGEB"),
    Entry('V', "CEBD"),
    Entry('W', "CGB"),
    Entry('X', "FBD"),
    Entry('Y', "CFGBD"),
    Entry('Z', "ACGED"),
    Entry('[', "AGEB"),
    Entry(']', "ACFG"),
    Entry('^', "ACB"),
    Entry('_', "G"),
    Entry('a', "ACFGED"),
    Entry('b', "FGEBD"),
    Entry('c', "GED"),
    Entry('d', "CFGED")]

  const Font7d: seq<Entry> := [
    Entry('e', "ACGEBD"),
    Entry('f', "AEBD"),
    Entry('g', "ACFGBD"),
    Entry('h', "FEBD"),
    Entry('i', "E"),
    Entry('j', "CFG"),
    Entry('k', "AFEBD"),
    Entry('l', "EB"),
    Entry('m', "FE"),
    Entry('n', "FED"),
    Entry('o', "FGED"),
    Entry('p', "ACEBD"),
    Entry('q', "ACFBD"),
    Entry('r', "ED"),
    Entry('s', "AFGBD"),
    Entry('t', "GEBD")]

  const Font7e: seq<Entry> := [
    Entry('u', "FGE"),
    Entry('v', "CBD"),
    Entry('w', "CB"),
    Entry('x', "CED"),
    Entry('y', "CFGBD"),
    Entry('z', "ACGED")]
}
