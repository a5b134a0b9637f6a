/** `Render::DrawGlyph` and `Render::DrawText`: bitmap text as a list of
    filled pixel rectangles.

    The text is a C string: drawing stops at the first NUL. Each other
    character either starts a new line (`'\n'`: back to the origin column,
    `8 * scale` further down, nothing drawn) or draws its glyph at the pen
    and moves the pen `6 * scale` to the right. Every lit glyph pixel is
    drawn through `DrawRectangle`, so the window scale and (optionally) the
    camera are applied on top of the text scale. */
module TextRender {
  import opened Render
  import opened GlyphFont

  /** The filled `DrawRectangle` call of each logical pixel, in order. */
  function PixelCommands(ctx: RenderContext, rects: seq<Rect>, color: Color, useCamera: bool): seq<DrawCmd> {
    if |rects| == 0 then []
    else PixelCommands(ctx, rects[..|rects| - 1], color, useCamera) + [DrawRectangle(ctx, rects[|rects| - 1], color, true, useCamera)]
  }

  lemma {:induction false} PixelCommandsAppend(ctx: RenderContext, a: seq<Rect>, b: seq<Rect>, color: Color, useCamera: bool)
    ensures PixelCommands(ctx, a + b, color, useCamera)
         == PixelCommands(ctx, a, color, useCamera) + PixelCommands(ctx, b, color, useCamera)
  {
    if |b| > 0 {
      assert (a + b)[..|a + b| - 1] == a + b[..|b| - 1];
      PixelCommandsAppend(ctx, a, b[..|b| - 1], color, useCamera);
    } else {
      assert a + b == a;
    }
  }

  /** One row of `DrawGlyph` (its inner loop): the lit columns of row `j`,
      left to right. */
  method DrawGlyphRow(ctx: RenderContext, row: nat, j: int, x: int, y: int, scale: int, color: Color, useCamera: bool)
    returns (cmds: seq<DrawCmd>)
    ensures cmds == PixelCommands(ctx, RowPixels(row, j, x, y, scale, 5), color, useCamera)
  {
    cmds := [];
    var i := 0;
    while i < 5
      invariant 0 <= i <= 5
      invariant cmds == PixelCommands(ctx, RowPixels(row, j, x, y, scale, i), color, useCamera)
    {
      if Bit(row, 4 - i) {
        var pixel := Rect(x + i * scale, y + j * scale, scale, scale);
        assert RowPixels(row, j, x, y, scale, i + 1) == RowPixels(row, j, x, y, scale, i) + [pixel];
        assert PixelCommands(ctx, [pixel], color, useCamera) == [DrawRectangle(ctx, pixel, color, true, useCamera)] by {
          assert [pixel][..0] == [];
        }
        PixelCommandsAppend(ctx, RowPixels(row, j, x, y, scale, i), [pixel], color, useCamera);
        cmds := cmds + [DrawRectangle(ctx, pixel, color, true, useCamera)];
      } else {
        assert RowPixels(row, j, x, y, scale, i + 1) == RowPixels(row, j, x, y, scale, i);
      }
      i := i + 1;
    }
  }

  /** `DrawGlyph`: one filled rectangle per lit bit, row by row, each row
      left to right. */
  method DrawGlyph(ctx: RenderContext, c: char, x: int, y: int, scale: int, color: Color, useCamera: bool)
    returns (cmds: seq<DrawCmd>)
    ensures cmds == PixelCommands(ctx, GlyphPixels(c, x, y, scale), color, useCamera)
  {
    var rows := GlyphRows(c);
    cmds := [];
    var j := 0;
    while j < 7
      invariant 0 <= j <= 7
      invariant cmds == PixelCommands(ctx, RowsPixels(rows, x, y, scale, j), color, useCamera)
    {
      var rowCmds := DrawGlyphRow(ctx, rows[j], j, x, y, scale, color, useCamera);
      PixelCommandsAppend(ctx, RowsPixels(rows, x, y, scale, j), RowPixels(rows[j], j, x, y, scale, 5), color, useCamera);
      cmds := cmds + rowCmds;
      j := j + 1;
    }
  }

  // ---------------------------------------------------------------------
  // Closed-form layout

  /** The length of the C string held in `text`: up to the first NUL. */
  function CLength(text: string): (n: nat)
    ensures n <= |text|
    ensures forall k :: 0 <= k < n ==> text[k] != '\0'
    ensures n < |text| ==> text[n] == '\0'
  {
    if |text| == 0 || text[0] == '\0' then 0 else 1 + CLength(text[1..])
  }

  /** The line the character at `k` is on. */
  function LineOf(text: string, k: nat): nat
    requires k <= |text|
  {
    if k == 0 then 0
    else LineOf(text, k - 1) + (if text[k - 1] == '\n' then 1 else 0)
  }

  /** The line of the character at `k` is the number of newlines before it. */
  lemma {:induction false} LineOfCountsNewlines(text: string, k: nat)
    requires k <= |text|
    ensures LineOf(text, k) == multiset(text[..k])['\n']
  {
    if k > 0 {
      LineOfCountsNewlines(text, k - 1);
      assert text[..k] == text[..k - 1] + [text[k - 1]];
    }
  }

  /** The column the character at `k` is in. */
  function ColumnOf(text: string, k: nat): nat
    requires k <= |text|
  {
    if k == 0 then 0
    else if text[k - 1] == '\n' then 0
    else ColumnOf(text, k - 1) + 1
  }

  /** The column of the character at `k` is the number of characters between
      it and the newline before it (or the start of the text). */
  lemma {:induction false} ColumnOfSinceNewline(text: string, k: nat)
    requires k <= |text|
    ensures ColumnOf(text, k) <= k
    ensures forall m :: k - ColumnOf(text, k) <= m < k ==> text[m] != '\n'
    ensures ColumnOf(text, k) < k ==> text[k - ColumnOf(text, k) - 1] == '\n'
  {
    if k > 0 && text[k - 1] != '\n' {
      ColumnOfSinceNewline(text, k - 1);
    }
  }

  /** Where the pen is before drawing the character at `k`: it starts at
      the origin, moves `6 * scale` right after each drawn character, and
      returns to the origin column after a newline. */
  function PenX(text: string, k: nat, ox: int, s: int): int
    requires k <= |text|
  {
    if k == 0 || text[k - 1] == '\n' then ox
    else PenX(text, k - 1, ox, s) + 6 * s
  }

  /** The pen moves `8 * scale` down after each newline. */
  function PenY(text: string, k: nat, oy: int, s: int): int
    requires k <= |text|
  {
    if k == 0 then oy
    else PenY(text, k - 1, oy, s) + (if text[k - 1] == '\n' then 8 * s else 0)
  }

  /** The pen is at the grid cell of the character's column and line, cells
      being `6 * scale` wide and `8 * scale` tall. */
  lemma {:induction false} PenAtCell(text: string, k: nat, ox: int, oy: int, s: int)
    requires k <= |text|
    ensures PenX(text, k, ox, s) == ox + ColumnOf(text, k) * (6 * s)
    ensures PenY(text, k, oy, s) == oy + LineOf(text, k) * (8 * s)
  {
    if k > 0 {
      PenAtCell(text, k - 1, ox, oy, s);
      MulSucc(ColumnOf(text, k - 1), 6 * s);
      MulSucc(LineOf(text, k - 1), 8 * s);
    }
  }

  /** A glyph as `DrawText` places it: the character and the pen position. */
  datatype Placement = Placement(c: char, x: int, y: int)

  /** The glyphs the first `n` characters place, in drawing order: one per
      character other than a newline, at the pen. */
  function Layout(text: string, n: nat, ox: int, oy: int, s: int): seq<Placement>
    requires n <= |text|
  {
    if n == 0 then []
    else if text[n - 1] == '\n' then Layout(text, n - 1, ox, oy, s)
    else Layout(text, n - 1, ox, oy, s) + [Placement(text[n - 1], PenX(text, n - 1, ox, s), PenY(text, n - 1, oy, s))]
  }

  /** The pixels of a list of placed glyphs, in order. */
  function PlacementsPixels(ps: seq<Placement>, s: int): seq<Rect> {
    if |ps| == 0 then []
    else PlacementsPixels(ps[..|ps| - 1], s) + GlyphPixels(ps[|ps| - 1].c, ps[|ps| - 1].x, ps[|ps| - 1].y, s)
  }

  /** The logical pixels of `DrawText(text, ox, oy, s)`. */
  function TextPixels(text: string, ox: int, oy: int, s: int): seq<Rect> {
    PlacementsPixels(Layout(text, CLength(text), ox, oy, s), s)
  }

  lemma PlacementsPixelsSnoc(ps: seq<Placement>, p: Placement, s: int)
    ensures PlacementsPixels(ps + [p], s) == PlacementsPixels(ps, s) + GlyphPixels(p.c, p.x, p.y, s)
  {
    assert (ps + [p])[..|ps + [p]| - 1] == ps;
  }

  lemma MulSucc(n: int, step: int)
    ensures (n + 1) * step == n * step + step
  {
  }

  /** A newline moves the pen to the start of the next line and places
      nothing. */
  lemma NewlineStep(text: string, k: nat, ox: int, oy: int, s: int)
    requires k < |text| && text[k] == '\n'
    ensures PenX(text, k + 1, ox, s) == ox
    ensures PenY(text, k + 1, oy, s) == PenY(text, k, oy, s) + 8 * s
    ensures Layout(text, k + 1, ox, oy, s) == Layout(text, k, ox, oy, s)
  {
  }

  /** Any other character is placed at the pen, which then advances one
      cell to the right. */
  lemma GlyphStep(text: string, k: nat, ox: int, oy: int, s: int)
    requires k < |text| && text[k] != '\n'
    ensures PenX(text, k + 1, ox, s) == PenX(text, k, ox, s) + 6 * s
    ensures PenY(text, k + 1, oy, s) == PenY(text, k, oy, s)
    ensures Layout(text, k + 1, ox, oy, s)
         == Layout(text, k, ox, oy, s) + [Placement(text[k], PenX(text, k, ox, s), PenY(text, k, oy, s))]
  {
  }

  /** `DrawText`: the loop of the source, with the pen kept in `px, py`. */
  method DrawText(ctx: RenderContext, text: string, x: int, y: int, scale: int, color: Color, useCamera: bool)
    returns (cmds: seq<DrawCmd>)
    ensures cmds == PixelCommands(ctx, TextPixels(text, x, y, scale), color, useCamera)
  {
    var px, py := x, y;
    var k := 0;
    cmds := [];
    while k < |text| && text[k] != '\0'
      invariant 0 <= k <= CLength(text)
      invariant px == PenX(text, k, x, scale)
      invariant py == PenY(text, k, y, scale)
      invariant cmds == PixelCommands(ctx, PlacementsPixels(Layout(text, k, x, y, scale), scale), color, useCamera)
    {
      assert k < CLength(text);
      if text[k] == '\n' {
        NewlineStep(text, k, x, y, scale);
        py := py + 8 * scale;
        px := x;
        k := k + 1;
        continue;
      }
      GlyphStep(text, k, x, y, scale);
      var placed := Layout(text, k, x, y, scale);
      PlacementsPixelsSnoc(placed, Placement(text[k], px, py), scale);
      var glyph := DrawGlyph(ctx, text[k], px, py, scale, color, useCamera);
      PixelCommandsAppend(ctx, PlacementsPixels(placed, scale), GlyphPixels(text[k], px, py, scale), color, useCamera);
      cmds := cmds + glyph;
      px := px + 6 * scale;
      k := k + 1;
    }
    assert k == CLength(text);
  }

  // ---------------------------------------------------------------------
  // Properties of the layout

  /** A text `a b NEWLINE c` laid out at `(ox, oy)`: `a` at the origin, `b`
      one cell to the right, `c` at the start of the next line. (For `"AB\nC"`
      at scale 1 from the origin: A at (0,0), B at (6,0), C at (0,8).) */
  lemma TwoLineLayout(a: char, b: char, c: char, ox: int, oy: int, s: int)
    requires a !in "\n\0" && b !in "\n\0" && c !in "\n\0"
    ensures CLength([a, b, '\n', c]) == 4
    ensures Layout([a, b, '\n', c], 4, ox, oy, s)
         == [Placement(a, ox, oy), Placement(b, ox + 6 * s, oy), Placement(c, ox, oy + 8 * s)]
  {
    var t := [a, b, '\n', c];
    assert t[1..] == [b, '\n', c] && t[1..][1..] == ['\n', c] && t[1..][1..][1..] == [c] && t[1..][1..][1..][1..] == [];
    assert PenX(t, 1, ox, s) == ox + 6 * s && PenY(t, 1, oy, s) == oy;
    assert PenX(t, 3, ox, s) == ox && PenY(t, 3, oy, s) == oy + 8 * s;
    var pa, pb, pc := Placement(a, ox, oy), Placement(b, ox + 6 * s, oy), Placement(c, ox, oy + 8 * s);
    assert Layout(t, 1, ox, oy, s) == [pa];
    assert Layout(t, 3, ox, oy, s) == Layout(t, 2, ox, oy, s) == [pa, pb];
    assert Layout(t, 4, ox, oy, s) == [pa, pb] + [pc];
  }

  /** The pixels of `a b NEWLINE c` are those of its three glyphs at their
      places, in order. */
  lemma TwoLineExample(a: char, b: char, c: char, ox: int, oy: int, s: int)
    requires a !in "\n\0" && b !in "\n\0" && c !in "\n\0"
    ensures TextPixels([a, b, '\n', c], ox, oy, s)
         == GlyphPixels(a, ox, oy, s) + GlyphPixels(b, ox + 6 * s, oy, s) + GlyphPixels(c, ox, oy + 8 * s, s)
  {
    var pa, pb, pc := Placement(a, ox, oy), Placement(b, ox + 6 * s, oy), Placement(c, ox, oy + 8 * s);
    var ga, gb, gc := GlyphPixels(a, ox, oy, s), GlyphPixels(b, ox + 6 * s, oy, s), GlyphPixels(c, ox, oy + 8 * s, s);
    assert PlacementsPixels([pa], s) == ga by {
      PlacementsPixelsSnoc([], pa, s);
      assert [pa] == [] + [pa];
    }
    assert PlacementsPixels([pa, pb], s) == ga + gb by {
      PlacementsPixelsSnoc([pa], pb, s);
      assert [pa, pb] == [pa] + [pb];
    }
    assert PlacementsPixels([pa, pb, pc], s) == ga + gb + gc by {
      PlacementsPixelsSnoc([pa, pb], pc, s);
      assert [pa, pb, pc] == [pa, pb] + [pc];
    }
    TwoLineLayout(a, b, c, ox, oy, s);
  }

  /** A character that `DrawText` draws nothing for. */
  predicate Silent(c: char) {
    c == '\n' || !Supported(c)
  }

  /** A text draws nothing exactly when every character before its
      terminator is a newline or has no glyph. */
  lemma TextBlankIff(text: string, ox: int, oy: int, s: int)
    ensures TextPixels(text, ox, oy, s) == [] <==> forall k :: 0 <= k < CLength(text) ==> Silent(text[k])
  {
    LayoutPixelCount(text, CLength(text), ox, oy, s);
    TextPixelCountZeroIff(text, CLength(text));
    var pixels := TextPixels(text, ox, oy, s);
    assert pixels == [] <==> |pixels| == 0;
  }

  /** The number of cells the first `n` characters light. */
  function TextPixelCount(text: string, n: nat): nat
    requires n <= |text|
  {
    if n == 0 then 0
    else TextPixelCount(text, n - 1) + (if text[n - 1] == '\n' then 0 else GlyphSize(text[n - 1]))
  }

  /** The first `n` characters draw one pixel per lit cell of their glyphs. */
  lemma {:induction false} LayoutPixelCount(text: string, n: nat, ox: int, oy: int, s: int)
    requires n <= |text|
    ensures |PlacementsPixels(Layout(text, n, ox, oy, s), s)| == TextPixelCount(text, n)
  {
    if n > 0 {
      LayoutPixelCount(text, n - 1, ox, oy, s);
      LayoutCountStep(text, n, ox, oy, s);
    }
  }

  lemma LayoutCountStep(text: string, n: nat, ox: int, oy: int, s: int)
    requires 0 < n <= |text|
    ensures |PlacementsPixels(Layout(text, n, ox, oy, s), s)|
         == |PlacementsPixels(Layout(text, n - 1, ox, oy, s), s)| + (if text[n - 1] == '\n' then 0 else GlyphSize(text[n - 1]))
  {
    var placed := Layout(text, n - 1, ox, oy, s);
    if text[n - 1] != '\n' {
      var p := Placement(text[n - 1], PenX(text, n - 1, ox, s), PenY(text, n - 1, oy, s));
      assert Layout(text, n, ox, oy, s) == placed + [p];
      PlacementsPixelsSnoc(placed, p, s);
      GlyphPixelCount(p.c, p.x, p.y, s);
    }
  }

  lemma {:induction false} TextPixelCountZeroIff(text: string, n: nat)
    requires n <= |text|
    ensures TextPixelCount(text, n) == 0 <==> forall k :: 0 <= k < n ==> Silent(text[k])
  {
    if n > 0 {
      TextPixelCountZeroIff(text, n - 1);
      GlyphSizeZeroIff(text[n - 1]);
    }
  }

  /** The layout of a prefix does not depend on what follows it. */
  lemma {:induction false} LayoutPrefix(a: string, b: string, n: nat, ox: int, oy: int, s: int)
    requires n <= |a|
    ensures Layout(a + b, n, ox, oy, s) == Layout(a, n, ox, oy, s)
  {
    if n > 0 {
      LayoutPrefix(a, b, n - 1, ox, oy, s);
      PenPrefix(a, b, n - 1, ox, oy, s);
      assert (a + b)[n - 1] == a[n - 1];
    }
  }

  /** The pen position depends only on the text before it. */
  lemma {:induction false} PenPrefix(a: string, b: string, k: nat, ox: int, oy: int, s: int)
    requires k <= |a|
    ensures PenX(a + b, k, ox, s) == PenX(a, k, ox, s)
    ensures PenY(a + b, k, oy, s) == PenY(a, k, oy, s)
  {
    if k > 0 {
      PenPrefix(a, b, k - 1, ox, oy, s);
      assert (a + b)[k - 1] == a[k - 1];
    }
  }

  lemma {:induction false} ColumnOfPrefix(a: string, b: string, k: nat)
    requires k <= |a|
    ensures ColumnOf(a + b, k) == ColumnOf(a, k)
  {
    if k > 0 {
      ColumnOfPrefix(a, b, k - 1);
      assert (a + b)[k - 1] == a[k - 1];
    }
  }

  lemma {:induction false} LineOfPrefix(a: string, b: string, k: nat)
    requires k <= |a|
    ensures LineOf(a + b, k) == LineOf(a, k)
  {
    if k > 0 {
      LineOfPrefix(a, b, k - 1);
      assert (a + b)[k - 1] == a[k - 1];
    }
  }

  /** Everything after a NUL terminator is ignored. */
  lemma TextStopsAtTerminator(a: string, b: string, ox: int, oy: int, s: int)
    requires forall k :: 0 <= k < |a| ==> a[k] != '\0'
    ensures TextPixels(a + "\0" + b, ox, oy, s) == TextPixels(a, ox, oy, s)
  {
    var t := a + "\0" + b;
    assert t == a + ("\0" + b);
    assert CLength(a) == |a|;
    assert CLength(t) == |a| by {
      assert t[|a|] == '\0';
    }
    LayoutPrefix(a, "\0" + b, |a|, ox, oy, s);
  }
}
