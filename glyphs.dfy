/**
 * The 5x7 font of the Pico:ed display driver: one entry per printable ASCII
 * character (32..126), five column bytes each, bit y of a column byte lighting
 * row y of that column.
 */
module Glyphs {

  /** A column byte of the font. Bit 7 is never used: every entry below is checked against this type. */
  type FontColumn = b: bv8 | b < 0x80

  /** One table entry: five columns, left to right. */
  datatype FontEntry = Entry(c0: FontColumn, c1: FontColumn, c2: FontColumn, c3: FontColumn, c4: FontColumn)

  predicate Printable(c: char) {
    ' ' <= c <= '~'
  }

  predicate PrintableText(s: string) {
    forall i :: 0 <= i < |s| ==> Printable(s[i])
  }

  /**
   * The font table, indexed by ord(c) - 32, written as the six rows of the
   * ASCII chart (0x20..0x2F, 0x30..0x3F, ..., 0x70..0x7E).
   */
  const BITMAP: seq<FontEntry> := ROW_2X + ROW_3X + ROW_4X + ROW_5X + ROW_6X + ROW_7X

  const ROW_2X: seq<FontEntry> := [
    Entry(0x00, 0x00, 0x00, 0x00, 0x00),  // ' '
    Entry(0x00, 0x00, 0x5f, 0x00, 0x00),  // '!'
    Entry(0x00, 0x07, 0x00, 0x07, 0x00),  // '"'
    Entry(0x14, 0x7f, 0x14, 0x7f, 0x14),  // '#'
    Entry(0x24, 0x2a, 0x7f, 0x2a, 0x12),  // '$'
    Entry(0x23, 0x13, 0x08, 0x64, 0x62),  // '%'
    Entry(0x36, 0x49, 0x55, 0x22, 0x50),  // '&'
    Entry(0x00, 0x05, 0x03, 0x00, 0x00),  // "'"
    Entry(0x00, 0x1c, 0x22, 0x41, 0x00),  // '('
    Entry(0x00, 0x41, 0x22, 0x1c, 0x00),  // ')'
    Entry(0x08, 0x2a, 0x1c, 0x2a, 0x08),  // '*'
    Entry(0x08, 0x08, 0x3e, 0x08, 0x08),  // '+'
    Entry(0x00, 0x50, 0x30, 0x00, 0x00),  // ','
    Entry(0x08, 0x08, 0x08, 0x08, 0x08),  // '-'
    Entry(0x00, 0x60, 0x60, 0x00, 0x00),  // '.'
    Entry(0x20, 0x10, 0x08, 0x04, 0x02)  // '/'
  ]

  const ROW_3X: seq<FontEntry> := [
    Entry(0x3e, 0x51, 0x49, 0x45, 0x3e),  // '0'
    Entry(0x00, 0x42, 0x7f, 0x40, 0x00),  // '1'
    Entry(0x42, 0x61, 0x51, 0x49, 0x46),  // '2'
    Entry(0x21, 0x41, 0x45, 0x4b, 0x31),  // '3'
    Entry(0x18, 0x14, 0x12, 0x7f, 0x10),  // '4'
    Entry(0x27, 0x45, 0x45, 0x45, 0x39),  // '5'
    Entry(0x3c, 0x4a, 0x49, 0x49, 0x30),  // '6'
    Entry(0x01, 0x71, 0x09, 0x05, 0x03),  // '7'
    Entry(0x36, 0x49, 0x49, 0x49, 0x36),  // '8'
    Entry(0x06, 0x49, 0x49, 0x29, 0x1e),  // '9'
    Entry(0x00, 0x36, 0x36, 0x00, 0x00),  // ':'
    Entry(0x00, 0x56, 0x36, 0x00, 0x00),  // ';'
    Entry(0x00, 0x08, 0x14, 0x22, 0x41),  // '<'
    Entry(0x14, 0x14, 0x14, 0x14, 0x14),  // '='
    Entry(0x41, 0x22, 0x14, 0x08, 0x00),  // '>'
    Entry(0x02, 0x01, 0x51, 0x09, 0x06)  // '?'
  ]

  const ROW_4X: seq<FontEntry> := [
    Entry(0x32, 0x49, 0x79, 0x41, 0x3e),  // '@'
    Entry(0x7e, 0x11, 0x11, 0x11, 0x7e),  // 'A'
    Entry(0x7f, 0x49, 0x49, 0x49, 0x36),  // 'B'
    Entry(0x3e, 0x41, 0x41, 0x41, 0x22),  // 'C'
    Entry(0x7f, 0x41, 0x41, 0x22, 0x1c),  // 'D'
    Entry(0x7f, 0x49, 0x49, 0x49, 0x41),  // 'E'
    Entry(0x7f, 0x09, 0x09, 0x01, 0x01),  // 'F'
    Entry(0x3e, 0x41, 0x41, 0x51, 0x32),  // 'G'
    Entry(0x7f, 0x08, 0x08, 0x08, 0x7f),  // 'H'
    Entry(0x00, 0x41, 0x7f, 0x41, 0x00),  // 'I'
    Entry(0x20, 0x40, 0x41, 0x3f, 0x01),  // 'J'
    Entry(0x7f, 0x08, 0x14, 0x22, 0x41),  // 'K'
    Entry(0x7f, 0x40, 0x40, 0x40, 0x40),  // 'L'
    Entry(0x7f, 0x02, 0x04, 0x02, 0x7f),  // 'M'
    Entry(0x7f, 0x04, 0x08, 0x10, 0x7f),  // 'N'
    Entry(0x3e, 0x41, 0x41, 0x41, 0x3e)  // 'O'
  ]

  const ROW_5X: seq<FontEntry> := [
    Entry(0x7f, 0x09, 0x09, 0x09, 0x06),  // 'P'
    Entry(0x3e, 0x41, 0x51, 0x21, 0x5e),  // 'Q'
    Entry(0x7f, 0x09, 0x19, 0x29, 0x46),  // 'R'
    Entry(0x46, 0x49, 0x49, 0x49, 0x31),  // 'S'
    Entry(0x01, 0x01, 0x7f, 0x01, 0x01),  // 'T'
    Entry(0x3f, 0x40, 0x40, 0x40, 0x3f),  // 'U'
    Entry(0x1f, 0x20, 0x40, 0x20, 0x1f),  // 'V'
    Entry(0x7f, 0x20, 0x18, 0x20, 0x7f),  // 'W'
    Entry(0x63, 0x14, 0x08, 0x14, 0x63),  // 'X'
    Entry(0x03, 0x04, 0x78, 0x04, 0x03),  // 'Y'
    Entry(0x61, 0x51, 0x49, 0x45, 0x43),  // 'Z'
    Entry(0x00, 0x00, 0x7f, 0x41, 0x41),  // '['
    Entry(0x02, 0x04, 0x08, 0x10, 0x20),  // '\\'
    Entry(0x41, 0x41, 0x7f, 0x00, 0x00),  // ']'
    Entry(0x04, 0x02, 0x01, 0x02, 0x04),  // '^'
    Entry(0x40, 0x40, 0x40, 0x40, 0x40)  // '_'
  ]

  const ROW_6X: seq<FontEntry> := [
    Entry(0x00, 0x01, 0x02, 0x04, 0x00),  // '`'
    Entry(0x20, 0x54, 0x54, 0x54, 0x78),  // 'a'
    Entry(0x7f, 0x48, 0x44, 0x44, 0x38),  // 'b'
    Entry(0x38, 0x44, 0x44, 0x44, 0x20),  // 'c'
    Entry(0x38, 0x44, 0x44, 0x48, 0x7f),  // 'd'
    Entry(0x38, 0x54, 0x54, 0x54, 0x18),  // 'e'
    Entry(0x08, 0x7e, 0x09, 0x01, 0x02),  // 'f'
    Entry(0x08, 0x14, 0x54, 0x54, 0x3c),  // 'g'
    Entry(0x7f, 0x08, 0x04, 0x04, 0x78),  // 'h'
    Entry(0x00, 0x44, 0x7d, 0x40, 0x00),  // 'i'
    Entry(0x20, 0x40, 0x44, 0x3d, 0x00),  // 'j'
    Entry(0x00, 0x7f, 0x10, 0x28, 0x44),  // 'k'
    Entry(0x00, 0x41, 0x7f, 0x40, 0x00),  // 'l'
    Entry(0x7c, 0x04, 0x18, 0x04, 0x78),  // 'm'
    Entry(0x7c, 0x08, 0x04, 0x04, 0x78),  // 'n'
    Entry(0x38, 0x44, 0x44, 0x44, 0x38)  // 'o'
  ]

  const ROW_7X: seq<FontEntry> := [
    Entry(0x7c, 0x14, 0x14, 0x14, 0x08),  // 'p'
    Entry(0x08, 0x14, 0x14, 0x18, 0x7c),  // 'q'
    Entry(0x7c, 0x08, 0x04, 0x04, 0x08),  // 'r'
    Entry(0x48, 0x54, 0x54, 0x54, 0x20),  // 's'
    Entry(0x04, 0x3f, 0x44, 0x40, 0x20),  // 't'
    Entry(0x3c, 0x40, 0x40, 0x20, 0x7c),  // 'u'
    Entry(0x1c, 0x20, 0x40, 0x20, 0x1c),  // 'v'
    Entry(0x3c, 0x40, 0x30, 0x40, 0x3c),  // 'w'
    Entry(0x44, 0x28, 0x10, 0x28, 0x44),  // 'x'
    Entry(0x0c, 0x50, 0x50, 0x50, 0x3c),  // 'y'
    Entry(0x44, 0x64, 0x54, 0x4c, 0x44),  // 'z'
    Entry(0x00, 0x08, 0x36, 0x41, 0x00),  // '{'
    Entry(0x00, 0x00, 0x7f, 0x00, 0x00),  // '|'
    Entry(0x00, 0x41, 0x36, 0x08, 0x00),  // '}'
    Entry(0x18, 0x04, 0x18, 0x20, 0x18)  // '~'
  ]

  /**
   * The six columns the driver draws for `c`: the table entry followed by one
   * blank spacing column. All six fit in seven rows.
   */
  function Glyph(c: char): (g: seq<bv8>)
    requires Printable(c)
    ensures |g| == 6 && g[5] == 0
    ensures forall k :: 0 <= k < 6 ==> g[k] < 0x80
  {
    assert |BITMAP| == 95;
    Columns(Lookup(BITMAP, c as int - 32)) + [0]
  }

  /**
   * Entry n of a table, found by walking it: the same value as table[n]
   * (LookupIsIndex), written so that a proof about one glyph does not unfold
   * the whole font.
   */
  function Lookup(table: seq<FontEntry>, n: nat): FontEntry
    requires n < |table|
  {
    if n == 0 then table[0] else Lookup(table[1..], n - 1)
  }

  lemma {:induction false} LookupIsIndex(table: seq<FontEntry>, n: nat)
    requires n < |table|
    ensures Lookup(table, n) == table[n]
  {
    if n > 0 {
      LookupIsIndex(table[1..], n - 1);
    }
  }

  /** The glyph of c is entry ord(c) - 32 of the table, followed by a blank column. */
  lemma GlyphIsTableEntry(c: char)
    requires Printable(c)
    ensures |BITMAP| == 95
    ensures Glyph(c) == Columns(BITMAP[c as int - 32]) + [0]
  {
    assert |BITMAP| == 95;
    LookupIsIndex(BITMAP, c as int - 32);
  }

  /** The five column bytes of a table entry. */
  function Columns(e: FontEntry): (s: seq<bv8>)
    ensures |s| == 5 && forall k :: 0 <= k < 5 ==> s[k] < 0x80
  {
    [e.c0, e.c1, e.c2, e.c3, e.c4]
  }

  /** The space glyph is blank, so padding with spaces draws nothing. */
  lemma SpaceIsBlank()
    ensures forall k :: 0 <= k < 6 ==> Glyph(' ')[k] == 0
  {
    assert BITMAP[0] == Entry(0, 0, 0, 0, 0) by { assert |BITMAP[..1]| == 1; }
  }
}
