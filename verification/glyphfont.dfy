/** The fixed 5x7 bitmap font of `Render::DrawGlyph`.

    A glyph is 7 row bitmasks of 5 bits each; bit 4 is the leftmost column.
    Lookup goes through C's `toupper`, and every character outside
    A-Z, 0-9 and `()/-:.` gets the blank glyph. Each lit bit becomes one
    `scale x scale` pixel rectangle, emitted row by row, left to right. */
module GlyphFont {
  import opened Render

  /** The 7 row bitmasks of one glyph. */
  type Rows = seq<nat>

  const Blank: Rows := [0, 0, 0, 0, 0, 0, 0]

  /** Seven rows, each fitting in 5 bits. */
  predicate WellFormed(rows: Rows) {
    |rows| == 7 && forall j :: 0 <= j < 7 ==> rows[j] < 32
  }

  /** C's `toupper` in the default locale: only `a`-`z` change. */
  function ToUpper(c: char): (u: char)
    ensures !('a' <= u <= 'z')
    ensures 'A' <= c <= 'Z' ==> u == c
    ensures u != c ==> 'a' <= c <= 'z' && u as int == c as int - 32
  {
    if 'a' <= c <= 'z' then (c as int - 32) as char else c
  }

  /** The characters that have a glyph of their own (after `toupper`). */
  predicate InCharset(u: char) {
    || 'A' <= u <= 'Z'
    || '0' <= u <= '9'
    || u == '(' || u == ')' || u == '/' || u == '-' || u == ':' || u == '.'
  }

  predicate Supported(c: char) {
    InCharset(ToUpper(c))
  }

  /** The glyphs of `A`-`Z`. */
  const Letters: seq<Rows> := [
    [0x0E, 0x11, 0x11, 0x1F, 0x11, 0x11, 0x11], // A
    [0x1E, 0x11, 0x11, 0x1E, 0x11, 0x11, 0x1E], // B
    [0x0E, 0x11, 0x10, 0x10, 0x10, 0x11, 0x0E], // C
    [0x1C, 0x12, 0x11, 0x11, 0x11, 0x12, 0x1C], // D
    [0x1F, 0x10, 0x10, 0x1E, 0x10, 0x10, 0x1F], // E
    [0x1F, 0x10, 0x10, 0x1E, 0x10, 0x10, 0x10], // F
    [0x0E, 0x11, 0x10, 0x17, 0x11, 0x11, 0x0E], // G
    [0x11, 0x11, 0x11, 0x1F, 0x11, 0x11, 0x11], // H
    [0x0E, 0x04, 0x04, 0x04, 0x04, 0x04, 0x0E], // I
    [0x07, 0x02, 0x02, 0x02, 0x12, 0x12, 0x0C], // J
    [0x11, 0x12, 0x14, 0x18, 0x14, 0x12, 0x11], // K
    [0x10, 0x10, 0x10, 0x10, 0x10, 0x10, 0x1F], // L
    [0x11, 0x1B, 0x15, 0x11, 0x11, 0x11, 0x11], // M
    [0x11, 0x19, 0x15, 0x13, 0x11, 0x11, 0x11], // N
    [0x0E, 0x11, 0x11, 0x11, 0x11, 0x11, 0x0E], // O
    [0x1E, 0x11, 0x11, 0x1E, 0x10, 0x10, 0x10], // P
    [0x0E, 0x11, 0x11, 0x11, 0x15, 0x12, 0x0D], // Q
    [0x1E, 0x11, 0x11, 0x1E, 0x14, 0x12, 0x11], // R
    [0x0F, 0x10, 0x10, 0x0E, 0x01, 0x01, 0x1E], // S
    [0x1F, 0x04, 0x04, 0x04, 0x04, 0x04, 0x04], // T
    [0x11, 0x11, 0x11, 0x11, 0x11, 0x11, 0x0E], // U
    [0x11, 0x11, 0x11, 0x11, 0x11, 0x0A, 0x04], // V
    [0x11, 0x11, 0x11, 0x15, 0x15, 0x1B, 0x11], // W
    [0x11, 0x11, 0x0A, 0x04, 0x0A, 0x11, 0x11], // X
    [0x11, 0x11, 0x0A, 0x04, 0x04, 0x04, 0x04], // Y
    [0x1F, 0x01, 0x02, 0x04, 0x08, 0x10, 0x1F]  // Z
  ]

  /** The glyphs of `0`-`9`. */
  const Digits: seq<Rows> := [
    [0x0E, 0x11, 0x13, 0x15, 0x19, 0x11, 0x0E], // 0
    [0x04, 0x0C, 0x04, 0x04, 0x04, 0x04, 0x0E], // 1
    [0x0E, 0x11, 0x01, 0x06, 0x08, 0x10, 0x1F], // 2
    [0x1F, 0x02, 0x04, 0x02, 0x01, 0x11, 0x0E], // 3
    [0x02, 0x06, 0x0A, 0x12, 0x1F, 0x02, 0x02], // 4
    [0x1F, 0x10, 0x1E, 0x01, 0x01, 0x11, 0x0E], // 5
    [0x06, 0x08, 0x10, 0x1E, 0x11, 0x11, 0x0E], // 6
    [0x1F, 0x01, 0x02, 0x04, 0x08, 0x08, 0x08], // 7
    [0x0E, 0x11, 0x11, 0x0E, 0x11, 0x11, 0x0E], // 8
    [0x0E, 0x11, 0x11, 0x0F, 0x01, 0x02, 0x0C]  // 9
  ]

  /** The glyphs of `(`, `)`, `/`, `-`, `:`, `.`. */
  const Punctuation: seq<Rows> := [
    [0x02, 0x04, 0x08, 0x08, 0x08, 0x04, 0x02], // (
    [0x08, 0x04, 0x02, 0x02, 0x02, 0x04, 0x08], // )
    [0x01, 0x01, 0x02, 0x04, 0x08, 0x10, 0x10], // /
    [0x00, 0x00, 0x00, 0x1F, 0x00, 0x00, 0x00], // -
    [0x00, 0x06, 0x06, 0x00, 0x06, 0x06, 0x00], // :
    [0x00, 0x00, 0x00, 0x00, 0x00, 0x06, 0x06]  // .
  ]

  /** All glyphs of the font, indexed by `GlyphIndex`. */
  const Font: seq<Rows> := Letters + Digits + Punctuation

  /** Every glyph of `glyphs` is well formed and lights at least one cell. */
  predicate AllVisible(glyphs: seq<Rows>) {
    forall g :: 0 <= g < |glyphs| ==> WellFormed(glyphs[g]) && glyphs[g] != Blank
  }

  lemma LettersShape()
    ensures |Letters| == 26 && AllVisible(Letters)
  {
  }

  lemma DigitsShape()
    ensures |Digits| == 10 && AllVisible(Digits)
  {
  }

  lemma PunctuationShape()
    ensures |Punctuation| == 6 && AllVisible(Punctuation)
  {
  }

  /** Every glyph of the font is well formed and lights at least one cell. */
  lemma FontShape()
    ensures |Font| == 42 && AllVisible(Font)
  {
    LettersShape();
    DigitsShape();
    PunctuationShape();
    forall g | 0 <= g < |Font|
      ensures WellFormed(Font[g]) && Font[g] != Blank
    {
      if g < 26 {
        assert Font[g] == Letters[g];
      } else if g < 36 {
        assert Font[g] == Digits[g - 26];
      } else {
        assert Font[g] == Punctuation[g - 36];
      }
    }
  }

  /** Where the glyph of an upper-case character sits in `Font`; -1 for a
      character without one (the blank glyph). */
  function GlyphIndex(u: char): (g: int)
    ensures -1 <= g < 42
    ensures g >= 0 <==> InCharset(u)
  {
    if 'A' <= u <= 'Z' then u as int - 'A' as int
    else if '0' <= u <= '9' then 26 + (u as int - '0' as int)
    else
      match u
      case '(' => 36
      case ')' => 37
      case '/' => 38
      case '-' => 39
      case ':' => 40
      case '.' => 41
      case _ => -1
  }

  /** Distinct characters of the set select distinct glyphs. */
  lemma GlyphIndexInjective(u: char, v: char)
    requires InCharset(u) && InCharset(v) && u != v
    ensures GlyphIndex(u) != GlyphIndex(v)
  {
  }

  /** The rows `DrawGlyph` draws for `c`: case-insensitive lookup, blank for
      anything outside the character set. */
  function GlyphRows(c: char): (rows: Rows)
    ensures |rows| == 7
  {
    FontShape();
    var g := GlyphIndex(ToUpper(c));
    if g < 0 then Blank else Font[g]
  }

  lemma GlyphRowsWellFormed(c: char)
    ensures WellFormed(GlyphRows(c))
  {
    FontShape();
  }

  /** A character has a visible glyph exactly when it is supported. */
  lemma GlyphRowsVisibleIff(c: char)
    ensures GlyphRows(c) != Blank <==> Supported(c)
  {
    FontShape();
  }

  /** The lookup as the source writes it: a `switch` on the upper-cased
      character, in the source's case order, with the blank glyph as the
      default. An independent transcription of the table, against which
      `GlyphRows` is checked. */
  function SwitchRows(u: char): Rows {
    match u
    case 'A' => [0x0E, 0x11, 0x11, 0x1F, 0x11, 0x11, 0x11]
    case 'B' => [0x1E, 0x11, 0x11, 0x1E, 0x11, 0x11, 0x1E]
    case 'C' => [0x0E, 0x11, 0x10, 0x10, 0x10, 0x11, 0x0E]
    case 'D' => [0x1C, 0x12, 0x11, 0x11, 0x11, 0x12, 0x1C]
    case 'E' => [0x1F, 0x10, 0x10, 0x1E, 0x10, 0x10, 0x1F]
    case 'F' => [0x1F, 0x10, 0x10, 0x1E, 0x10, 0x10, 0x10]
    case 'G' => [0x0E, 0x11, 0x10, 0x17, 0x11, 0x11, 0x0E]
    case 'H' => [0x11, 0x11, 0x11, 0x1F, 0x11, 0x11, 0x11]
    case 'I' => [0x0E, 0x04, 0x04, 0x04, 0x04, 0x04, 0x0E]
    case 'J' => [0x07, 0x02, 0x02, 0x02, 0x12, 0x12, 0x0C]
    case 'K' => [0x11, 0x12, 0x14, 0x18, 0x14, 0x12, 0x11]
    case 'L' => [0x10, 0x10, 0x10, 0x10, 0x10, 0x10, 0x1F]
    case 'M' => [0x11, 0x1B, 0x15, 0x11, 0x11, 0x11, 0x11]
    case 'N' => [0x11, 0x19, 0x15, 0x13, 0x11, 0x11, 0x11]
    case 'O' => [0x0E, 0x11, 0x11, 0x11, 0x11, 0x11, 0x0E]
    case 'P' => [0x1E, 0x11, 0x11, 0x1E, 0x10, 0x10, 0x10]
    case 'Q' => [0x0E, 0x11, 0x11, 0x11, 0x15, 0x12, 0x0D]
    case 'R' => [0x1E, 0x11, 0x11, 0x1E, 0x14, 0x12, 0x11]
    case 'S' => [0x0F, 0x10, 0x10, 0x0E, 0x01, 0x01, 0x1E]
    case 'T' => [0x1F, 0x04, 0x04, 0x04, 0x04, 0x04, 0x04]
    case 'U' => [0x11, 0x11, 0x11, 0x11, 0x11, 0x11, 0x0E]
    case 'V' => [0x11, 0x11, 0x11, 0x11, 0x11, 0x0A, 0x04]
    case 'W' => [0x11, 0x11, 0x11, 0x15, 0x15, 0x1B, 0x11]
    case 'X' => [0x11, 0x11, 0x0A, 0x04, 0x0A, 0x11, 0x11]
    case 'Y' => [0x11, 0x11, 0x0A, 0x04, 0x04, 0x04, 0x04]
    case 'Z' => [0x1F, 0x01, 0x02, 0x04, 0x08, 0x10, 0x1F]
    case '0' => [0x0E, 0x11, 0x13, 0x15, 0x19, 0x11, 0x0E]
    case '1' => [0x04, 0x0C, 0x04, 0x04, 0x04, 0x04, 0x0E]
    case '2' => [0x0E, 0x11, 0x01, 0x06, 0x08, 0x10, 0x1F]
    case '3' => [0x1F, 0x02, 0x04, 0x02, 0x01, 0x11, 0x0E]
    case '4' => [0x02, 0x06, 0x0A, 0x12, 0x1F, 0x02, 0x02]
    case '5' => [0x1F, 0x10, 0x1E, 0x01, 0x01, 0x11, 0x0E]
    case '6' => [0x06, 0x08, 0x10, 0x1E, 0x11, 0x11, 0x0E]
    case '7' => [0x1F, 0x01, 0x02, 0x04, 0x08, 0x08, 0x08]
    case '8' => [0x0E, 0x11, 0x11, 0x0E, 0x11, 0x11, 0x0E]
    case '9' => [0x0E, 0x11, 0x11, 0x0F, 0x01, 0x02, 0x0C]
    case '(' => [0x02, 0x04, 0x08, 0x08, 0x08, 0x04, 0x02]
    case ')' => [0x08, 0x04, 0x02, 0x02, 0x02, 0x04, 0x08]
    case '/' => [0x01, 0x01, 0x02, 0x04, 0x08, 0x10, 0x10]
    case '-' => [0x00, 0x00, 0x00, 0x1F, 0x00, 0x00, 0x00]
    case ':' => [0x00, 0x06, 0x06, 0x00, 0x06, 0x06, 0x00]
    case '.' => [0x00, 0x00, 0x00, 0x00, 0x00, 0x06, 0x06]
    case _ => Blank
  }

  /** The letters `A`-`M` of the table agree with the `switch`. */
  lemma FirstLettersMatchSwitch(u: char)
    requires 'A' <= u <= 'M'
    ensures Letters[u as int - 'A' as int] == SwitchRows(u)
  {
  }

  /** The letters `N`-`Z` of the table agree with the `switch`. */
  lemma LastLettersMatchSwitch(u: char)
    requires 'N' <= u <= 'Z'
    ensures Letters[u as int - 'A' as int] == SwitchRows(u)
  {
  }

  /** The digits of the table agree with the `switch`. */
  lemma DigitsMatchSwitch(u: char)
    requires '0' <= u <= '9'
    ensures Digits[u as int - '0' as int] == SwitchRows(u)
  {
  }

  /** The punctuation of the table agrees with the `switch`. */
  lemma PunctuationMatchSwitch(u: char)
    requires u in "()/-:."
    ensures 36 <= GlyphIndex(u) < 42
    ensures Punctuation[GlyphIndex(u) - 36] == SwitchRows(u)
  {
  }

  /** Where each part of the table sits inside `Font`. */
  lemma FontParts(g: int)
    requires 0 <= g < 42
    ensures g < 26 ==> Font[g] == Letters[g]
    ensures 26 <= g < 36 ==> Font[g] == Digits[g - 26]
    ensures 36 <= g ==> Font[g] == Punctuation[g - 36]
  {
    FontShape();
  }

  /** `GlyphRows` selects, for every character, exactly the rows the
      source's `switch` selects for its upper-cased form. */
  lemma GlyphRowsMatchSwitch(c: char)
    ensures GlyphRows(c) == SwitchRows(ToUpper(c))
  {
    var u := ToUpper(c);
    if 'A' <= u <= 'M' {
      FirstLettersMatchSwitch(u);
      FontParts(GlyphIndex(u));
    } else if 'N' <= u <= 'Z' {
      LastLettersMatchSwitch(u);
      FontParts(GlyphIndex(u));
    } else if '0' <= u <= '9' {
      DigitsMatchSwitch(u);
      FontParts(GlyphIndex(u));
    } else if u in "()/-:." {
      PunctuationMatchSwitch(u);
      FontParts(GlyphIndex(u));
    } else {
      assert !InCharset(u);
    }
  }

  /** Lower- and upper-case letters share one glyph. */
  lemma GlyphRowsCaseInsensitive(c: char)
    requires 'a' <= c <= 'z'
    ensures GlyphRows(c) == GlyphRows((c as int - 32) as char)
  {
  }

  // ---------------------------------------------------------------------
  // Bits of a row

  function Pow2(k: nat): nat {
    if k == 0 then 1 else 2 * Pow2(k - 1)
  }

  /** Bit `b` of `row`, the test `row & (1 << b)` of the source. */
  predicate Bit(row: nat, b: nat)
    decreases b
  {
    if b == 0 then row % 2 == 1 else Bit(row / 2, b - 1)
  }

  /** The number of set bits of `row`. */
  function PopCount(row: nat): nat
    decreases row
  {
    if row == 0 then 0 else row % 2 + PopCount(row / 2)
  }

  /** The number of set bits among bits `0 .. k-1` of `row`. */
  function BitsBelow(row: nat, k: nat): nat
  {
    if k == 0 then 0 else BitsBelow(row, k - 1) + (if Bit(row, k - 1) then 1 else 0)
  }

  lemma {:induction false} BitsBelowShift(row: nat, k: nat)
    ensures BitsBelow(row, k + 1) == row % 2 + BitsBelow(row / 2, k)
  {
    if k > 0 {
      BitsBelowShift(row, k - 1);
    }
  }

  /** Counting the bits below `k` counts them all once `row < 2^k`. */
  lemma {:induction false} BitsBelowIsPopCount(row: nat, k: nat)
    requires row < Pow2(k)
    ensures BitsBelow(row, k) == PopCount(row)
  {
    if k > 0 {
      BitsBelowShift(row, k - 1);
      BitsBelowIsPopCount(row / 2, k - 1);
    }
  }

  lemma {:induction false} PopCountPositive(row: nat)
    ensures PopCount(row) > 0 <==> row > 0
  {
    if row > 0 && row % 2 == 0 {
      PopCountPositive(row / 2);
    }
  }

  /** Total set bits of the first `m` rows. */
  function RowsPopCount(rows: Rows, m: nat): nat
    requires m <= |rows|
  {
    if m == 0 then 0 else RowsPopCount(rows, m - 1) + PopCount(rows[m - 1])
  }

  // ---------------------------------------------------------------------
  // Pixels

  /** The pixel rectangle of column `i`, row `j` of a glyph drawn at `(x, y)`. */
  function Pixel(x: int, y: int, s: int, i: int, j: int): Rect {
    Rect(x + i * s, y + j * s, s, s)
  }

  /** The pixels of columns `0 .. n-1` of row `j`, in drawing order: column
      `i` is lit when bit `4 - i` of the row is set. */
  function RowPixels(row: nat, j: int, x: int, y: int, s: int, n: nat): seq<Rect>
    requires n <= 5
  {
    if n == 0 then []
    else RowPixels(row, j, x, y, s, n - 1) + (if Bit(row, 5 - n) then [Pixel(x, y, s, n - 1, j)] else [])
  }

  /** The pixels of rows `0 .. m-1`, in drawing order. */
  function RowsPixels(rows: Rows, x: int, y: int, s: int, m: nat): seq<Rect>
    requires m <= |rows|
  {
    if m == 0 then []
    else RowsPixels(rows, x, y, s, m - 1) + RowPixels(rows[m - 1], m - 1, x, y, s, 5)
  }

  /** The logical pixel rectangles `DrawGlyph` emits for `c` at `(x, y)`. */
  function GlyphPixels(c: char, x: int, y: int, s: int): seq<Rect> {
    RowsPixels(GlyphRows(c), x, y, s, 7)
  }

  // ---------------------------------------------------------------------
  // Count

  lemma {:induction false} RowPixelsCount(row: nat, j: int, x: int, y: int, s: int, n: nat)
    requires n <= 5
    ensures |RowPixels(row, j, x, y, s, n)| + BitsBelow(row, 5 - n) == BitsBelow(row, 5)
  {
    if n > 0 {
      RowPixelsCount(row, j, x, y, s, n - 1);
    }
  }

  lemma {:induction false} RowsPixelsCount(rows: Rows, x: int, y: int, s: int, m: nat)
    requires m <= |rows|
    requires forall r :: 0 <= r < m ==> rows[r] < 32
    ensures |RowsPixels(rows, x, y, s, m)| == RowsPopCount(rows, m)
  {
    if m > 0 {
      RowsPixelsCount(rows, x, y, s, m - 1);
      RowPixelsCount(rows[m - 1], m - 1, x, y, s, 5);
      assert Pow2(5) == 32;
      BitsBelowIsPopCount(rows[m - 1], 5);
    }
  }

  /** A glyph emits exactly as many rectangles as its rows have set bits. */
  lemma GlyphPixelCount(c: char, x: int, y: int, s: int)
    ensures |GlyphPixels(c, x, y, s)| == RowsPopCount(GlyphRows(c), 7)
  {
    GlyphRowsWellFormed(c);
    RowsPixelsCount(GlyphRows(c), x, y, s, 7);
  }

  lemma {:induction false} RowsPopCountZero(rows: Rows, m: nat)
    requires m <= |rows|
    ensures RowsPopCount(rows, m) == 0 <==> forall r :: 0 <= r < m ==> rows[r] == 0
  {
    if m > 0 {
      RowsPopCountZero(rows, m - 1);
      PopCountPositive(rows[m - 1]);
    }
  }

  /** A glyph emits nothing exactly when its character is unsupported. */
  lemma GlyphBlankIff(c: char, x: int, y: int, s: int)
    ensures GlyphPixels(c, x, y, s) == [] <==> !Supported(c)
  {
    GlyphPixelCount(c, x, y, s);
    GlyphSizeZeroIff(c);
  }

  /** The number of cells the glyph of `c` lights. */
  function GlyphSize(c: char): nat {
    RowsPopCount(GlyphRows(c), 7)
  }

  /** A glyph lights no cell exactly when its character is unsupported. */
  lemma GlyphSizeZeroIff(c: char)
    ensures GlyphSize(c) == 0 <==> !Supported(c)
  {
    var rows := GlyphRows(c);
    RowsPopCountZero(rows, 7);
    if rows != Blank {
      assert exists r :: 0 <= r < 7 && rows[r] != Blank[r];
    } else {
      assert forall r :: 0 <= r < 7 ==> rows[r] == 0;
    }
  }

  /** Case does not matter: a lower-case letter draws its capital. */
  lemma GlyphCaseInsensitive(c: char, x: int, y: int, s: int)
    requires 'a' <= c <= 'z'
    ensures GlyphPixels(c, x, y, s) == GlyphPixels((c as int - 32) as char, x, y, s)
  {
    GlyphRowsCaseInsensitive(c);
  }

  // ---------------------------------------------------------------------
  // Placement

  /** Every pixel of columns `0 .. n-1` of row `j` is a lit cell of that row. */
  lemma {:induction false} RowPixelsAreLitCells(row: nat, j: int, x: int, y: int, s: int, n: nat, r: Rect)
    requires n <= 5
    requires r in RowPixels(row, j, x, y, s, n)
    ensures exists i :: 0 <= i < n && Bit(row, 4 - i) && r == Pixel(x, y, s, i, j)
  {
    var rest := RowPixels(row, j, x, y, s, n - 1);
    if r in rest {
      RowPixelsAreLitCells(row, j, x, y, s, n - 1, r);
    } else {
      assert Bit(row, 4 - (n - 1)) && r == Pixel(x, y, s, n - 1, j);
    }
  }

  /** Every lit cell among columns `0 .. n-1` of row `j` is drawn. */
  lemma {:induction false} LitCellsAreRowPixels(row: nat, j: int, x: int, y: int, s: int, n: nat, i: nat)
    requires i < n <= 5
    requires Bit(row, 4 - i)
    ensures Pixel(x, y, s, i, j) in RowPixels(row, j, x, y, s, n)
  {
    if i < n - 1 {
      LitCellsAreRowPixels(row, j, x, y, s, n - 1, i);
    }
  }

  lemma {:induction false} RowsPixelsAreLitCells(rows: Rows, x: int, y: int, s: int, m: nat, r: Rect)
    requires m <= |rows|
    requires r in RowsPixels(rows, x, y, s, m)
    ensures exists i, j :: 0 <= i < 5 && 0 <= j < m && Bit(rows[j], 4 - i) && r == Pixel(x, y, s, i, j)
  {
    if r in RowsPixels(rows, x, y, s, m - 1) {
      RowsPixelsAreLitCells(rows, x, y, s, m - 1, r);
    } else {
      RowPixelsAreLitCells(rows[m - 1], m - 1, x, y, s, 5, r);
    }
  }

  lemma {:induction false} LitCellsAreRowsPixels(rows: Rows, x: int, y: int, s: int, m: nat, i: nat, j: nat)
    requires m <= |rows| && i < 5 && j < m
    requires Bit(rows[j], 4 - i)
    ensures Pixel(x, y, s, i, j) in RowsPixels(rows, x, y, s, m)
  {
    var p := Pixel(x, y, s, i, j);
    var front := RowsPixels(rows, x, y, s, m - 1);
    var last := RowPixels(rows[m - 1], m - 1, x, y, s, 5);
    assert RowsPixels(rows, x, y, s, m) == front + last;
    if j < m - 1 {
      LitCellsAreRowsPixels(rows, x, y, s, m - 1, i, j);
      assert p in front;
    } else {
      LitCellsAreRowPixels(rows[j], j, x, y, s, 5, i);
      assert p in last;
    }
  }

  /** With a positive scale, distinct cells have distinct rectangles. */
  lemma PixelInjective(x: int, y: int, s: int, i: int, j: int, i': int, j': int)
    requires s > 0
    requires Pixel(x, y, s, i, j) == Pixel(x, y, s, i', j')
    ensures i == i' && j == j'
  {
    assert (i - i') * s == 0;
    assert (j - j') * s == 0;
  }

  /** The pixel of column `i`, row `j` is drawn exactly when bit `4 - i` of
      row `j` is set. */
  lemma GlyphPixelLit(c: char, x: int, y: int, s: int, i: nat, j: nat)
    requires s > 0 && i < 5 && j < 7
    ensures Pixel(x, y, s, i, j) in GlyphPixels(c, x, y, s) <==> Bit(GlyphRows(c)[j], 4 - i)
  {
    var rows := GlyphRows(c);
    if Pixel(x, y, s, i, j) in GlyphPixels(c, x, y, s) {
      RowsPixelsAreLitCells(rows, x, y, s, 7, Pixel(x, y, s, i, j));
      var i', j' :| 0 <= i' < 5 && 0 <= j' < 7 && Bit(rows[j'], 4 - i') && Pixel(x, y, s, i, j) == Pixel(x, y, s, i', j');
      PixelInjective(x, y, s, i, j, i', j');
    }
    if Bit(rows[j], 4 - i) {
      LitCellsAreRowsPixels(rows, x, y, s, 7, i, j);
    }
  }

  /** Every pixel is `scale x scale` and lies inside the glyph's 5x7 cell
      box `[x, x + 5*scale) x [y, y + 7*scale)`. */
  lemma GlyphWithinBox(c: char, x: int, y: int, s: int, r: Rect)
    requires s >= 0
    requires r in GlyphPixels(c, x, y, s)
    ensures r.w == s && r.h == s
    ensures x <= r.x && r.x + s <= x + 5 * s
    ensures y <= r.y && r.y + s <= y + 7 * s
  {
    RowsPixelsAreLitCells(GlyphRows(c), x, y, s, 7, r);
    var i, j :| 0 <= i < 5 && 0 <= j < 7 && r == Pixel(x, y, s, i, j);
    PixelInBox(x, y, s, i, j);
  }

  /** The cell `(i, j)` of the 5x7 grid lies inside the glyph's box. */
  lemma PixelInBox(x: int, y: int, s: int, i: int, j: int)
    requires 0 <= i < 5 && 0 <= j < 7 && s >= 0
    ensures var p := Pixel(x, y, s, i, j);
            && p.w == s && p.h == s
            && x <= p.x && p.x + s <= x + 5 * s
            && y <= p.y && p.y + s <= y + 7 * s
  {
    CellInRange(i, 5, s);
    CellInRange(j, 7, s);
  }

  /** Cell `i` of `n` cells of size `s` lies within `[0, n * s)`. */
  lemma CellInRange(i: int, n: int, s: int)
    requires 0 <= i < n && s >= 0
    ensures 0 <= i * s && i * s + s <= n * s
  {
    assert (n - i - 1) * s >= 0;
    assert n * s - (i * s + s) == (n - i - 1) * s;
  }
}
