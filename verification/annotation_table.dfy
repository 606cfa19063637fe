/** The annotation font's glyph table: one 32-bit code per character from ' '
    (0x20) to 0x85, eight 4-bit commands read from the most significant end.

    A command nibble names a vertex on a 3x3 grid (bit 3 set: draw to it; clear:
    move to it). Vertex numbers 0 1 2 are the bottom row left to right, 3 and 4 the
    middle row's left and right ends, and 5 6 7 the top row. The decoding, and the
    special meaning of a final move nibble, are in module Annotation.
 */
module AnnotationTable {

  /** A code as stored: an unsigned 32-bit word. */
  type Word = n: nat | n < 0x1_0000_0000

  /** Index i holds the code of character 0x20 + i. */
  const Strokes: seq<Word> :=
    Punctuation1 + Punctuation2 + Digits + Punctuation3 + UpperAM + UpperNZ + Brackets
    + LowerAM + LowerNZ + Braces + Symbols

  /** ' ' to '\'' */
  const Punctuation1: seq<Word> := [0x0000_0000, 0x00E1_9000, 0x3D00_E000, 0xE1F5_C3A0, 0x7DBC_A81E, 0xFDBE_4A9C, 0x49BE_DA00, 0x00E0_0000]

  /** '(' to '/' */
  const Punctuation2: seq<Word> := [0x6B90_0000, 0x6C90_0000, 0x5A69_783C, 0x693C_0000, 0x1CC0_0003, 0x3C00_0000, 0x1900_0000, 0x0F00_0000]

  /** '0' to '9' */
  const Digits: seq<Word> := [0x5FA8_D780, 0x5E90_A000, 0x5FCB_8A00, 0x5FCB_4A80, 0x5BC7_A000, 0x7DBC_A800, 0x7D8A_CB00, 0x5FA0_0000, 0x5FA8_D3C0, 0x5FA5_BC00]

  /** ':' to '@' */
  const Punctuation3: seq<Word> := [0x1900_0004, 0x1CC7_F003, 0x2BF0_0000, 0x5F3C_0003, 0x5C80_0000, 0x1900_CFDB, 0x28DF_CBEC]

  /** 'A' to 'M' */
  const UpperAM: seq<Word> := [0x2FD8_3C00, 0x00FD_89CB, 0x7D8A_0000, 0x589C_ED00, 0x7D8A_00B0, 0x7D80_0B00, 0x7D8A_C00C, 0x587A_3C00, 0x5F28_6900, 0x5F69_8000, 0x583F_3A00, 0x58A0_0000, 0x2FD8_6900]

  /** 'N' to 'Z' */
  const UpperNZ: seq<Word> := [0x7AD8_0000, 0x5FA8_D000, 0x3CFD_8000, 0xAFD8_A00A, 0xDFCB_00A0, 0x7DBC_A800, 0x5F69_0000, 0x58AF_0000, 0x59F0_0000, 0x58AF_1E00, 0x0F5A_0000, 0x5BC7_A800, 0x5F8A_0000]

  /** '[' to '`', where the fourth entry (index 62, '^') is the underscore glyph and the fifth (index 63, '_') the caret */
  const Brackets: seq<Word> := [0x29EF_0000, 0x5A00_0000, 0x5E98_0000, 0xA000_0000, 0x3EC0_0000, 0x00D0_0000]

  /** 'a' to 'm' */
  const LowerAM: seq<Word> := [0x5FA8_BC01, 0x58AC_B000, 0x28BC_0000, 0x7A8B_C000, 0x28DF_CB01, 0x1EF3_C000, 0xAFDB_C002, 0xD3CA_0000, 0x0090_0004, 0x9E00_0006, 0xD3A3_C000, 0x1E00_0000, 0xBCA0_0900]

  /** 'n' to 'z' */
  const LowerNZ: seq<Word> := [0xD3EF_A001, 0xBCA8_0000, 0xDFCB_8002, 0x2FDB_C002, 0xD3EF_0001, 0xACBD_F001, 0x29E3_C000, 0x589C_FA01, 0x39C0_0000, 0x38AC_0090, 0xC3A0_0000, 0x5BCF_4A82, 0x3C8A_0000]

  /** '{' to '~' */
  const Braces: seq<Word> := [0x29EF_00B0, 0x1E00_0000, 0x9ED0_0C00, 0x3DCF_0001]

  /** 0x7F to 0x85: diamond, left, right, up and down arrows, degree sign, alternative '5' */
  const Symbols: seq<Word> := [0x1BEC_9000, 0x4BE1_B000, 0x3CE1_C000, 0x1EB4_E000, 0x69B4_9000, 0x3CFD_B000, 0x7DBC_9800]

}
