/** The scaled immediate-mode drawing primitives of `Render`.

    Every draw call is modelled as the record it hands to the SDL backend:
    the device-space rectangle, line, circle centre or textured quad, with
    its colour. Whether the backend then succeeds is not modelled; the one
    failure the renderer itself detects (a texture whose size cannot be
    queried) is an `Err`. */
module Render {
  import opened Wrappers
  import opened CNumeric

  newtype byte = b: int | 0 <= b < 256

  datatype Color = Color(r: byte, g: byte, b: byte, a: byte)

  /** `SDL_Rect`: position and size in whole pixels. */
  datatype Rect = Rect(x: int, y: int, w: int, h: int)

  datatype Point = Point(x: int, y: int)

  /** Opaque handle of a loaded texture. */
  type TextureId = nat

  /** The state every draw call reads: the shared camera rectangle (its `x, y`
      are an offset added to world coordinates, its `w, h` the scaled window
      size) and the window's integer display scale. */
  datatype RenderContext = RenderContext(camera: Rect, scale: int)

  /** What one draw call emits to the backend, in device pixels. */
  datatype DrawCmd =
    | FillRect(dst: Rect, color: Color)
    | OutlineRect(dst: Rect, color: Color)
    | Line(from: Point, to: Point, color: Color)
    | Circle(center: Point, radius: int, color: Color)
    | Blit(texture: TextureId, src: Option<Rect>, dst: Rect, angle: real, pivot: Option<Point>)

  datatype RenderError = TextureSizeUnavailable

  /** `INT_MAX`, the "no pivot" default of `DrawTexture`. */
  const IntMax: int := 0x7FFF_FFFF

  /** Logical to device coordinates: `camera + p * scale`, or `p * scale`
      when the camera is not used. Shared by rectangles, lines and circles. */
  function ToDevice(ctx: RenderContext, useCamera: bool, p: Point): (d: Point)
    ensures useCamera ==> d.x - ctx.camera.x == p.x * ctx.scale && d.y - ctx.camera.y == p.y * ctx.scale
    ensures !useCamera ==> d.x == p.x * ctx.scale && d.y == p.y * ctx.scale
  {
    var ox := if useCamera then ctx.camera.x else 0;
    var oy := if useCamera then ctx.camera.y else 0;
    Point(ox + p.x * ctx.scale, oy + p.y * ctx.scale)
  }

  /** The inverse transform: the logical point a device point comes from, if
      any (a device point between two scaled logical points has none). */
  function ToLogical(ctx: RenderContext, useCamera: bool, d: Point): Option<Point>
    requires ctx.scale != 0
  {
    var ox := if useCamera then ctx.camera.x else 0;
    var oy := if useCamera then ctx.camera.y else 0;
    if (d.x - ox) % ctx.scale == 0 && (d.y - oy) % ctx.scale == 0
    then Some(Point((d.x - ox) / ctx.scale, (d.y - oy) / ctx.scale))
    else None
  }

  /** Multiplying by a non-zero scale and dividing again is exact. */
  lemma MulDivCancel(a: int, s: int)
    requires s != 0
    ensures (a * s) % s == 0 && (a * s) / s == a
  {
    var q, r := (a * s) / s, (a * s) % s;
    assert (a - q) * s == r by {
      assert a * s == q * s + r;
      assert (a - q) * s == a * s - q * s;
    }
    // The multiple (a - q) * s lies strictly between -|s| and |s|, so a == q.
    if a - q >= 1 {
      assert false;
    } else if a - q <= -1 {
      assert false;
    }
  }

  /** Every logical point is recovered from its device image. */
  lemma ToDeviceRoundTrip(ctx: RenderContext, useCamera: bool, p: Point)
    requires ctx.scale != 0
    ensures ToLogical(ctx, useCamera, ToDevice(ctx, useCamera, p)) == Some(p)
  {
    MulDivCancel(p.x, ctx.scale);
    MulDivCancel(p.y, ctx.scale);
  }

  /** Every device point that has a logical preimage is the image of it. */
  lemma ToLogicalRoundTrip(ctx: RenderContext, useCamera: bool, d: Point)
    requires ctx.scale != 0
    requires ToLogical(ctx, useCamera, d).Some?
    ensures ToDevice(ctx, useCamera, ToLogical(ctx, useCamera, d).value) == d
  {
  }

  /** `DrawRectangle`: position through the shared transform, size scaled. */
  function DrawRectangle(ctx: RenderContext, rect: Rect, color: Color, filled: bool, useCamera: bool): (cmd: DrawCmd)
    ensures cmd.FillRect? <==> filled
    ensures cmd.FillRect? || cmd.OutlineRect?
    ensures cmd.color == color
    ensures Point(cmd.dst.x, cmd.dst.y) == ToDevice(ctx, useCamera, Point(rect.x, rect.y))
    ensures cmd.dst.w == rect.w * ctx.scale && cmd.dst.h == rect.h * ctx.scale
  {
    var dst :=
      if useCamera then Rect(ctx.camera.x + rect.x * ctx.scale, ctx.camera.y + rect.y * ctx.scale, rect.w * ctx.scale, rect.h * ctx.scale)
      else Rect(rect.x * ctx.scale, rect.y * ctx.scale, rect.w * ctx.scale, rect.h * ctx.scale);
    if filled then FillRect(dst, color) else OutlineRect(dst, color)
  }

  /** Using the camera only translates a rectangle by the camera offset:
      it neither resizes it nor changes how its position is scaled. */
  lemma CameraOnlyTranslates(ctx: RenderContext, rect: Rect, color: Color, filled: bool)
    ensures var withCam := DrawRectangle(ctx, rect, color, filled, true).dst;
            var without := DrawRectangle(ctx, rect, color, filled, false).dst;
            withCam == Rect(without.x + ctx.camera.x, without.y + ctx.camera.y, without.w, without.h)
  {
  }

  /** `DrawLine`: both endpoints through the same transform as rectangles. */
  function DrawLine(ctx: RenderContext, x1: int, y1: int, x2: int, y2: int, color: Color, useCamera: bool): (cmd: DrawCmd)
    ensures cmd.Line? && cmd.color == color
    ensures cmd.from == ToDevice(ctx, useCamera, Point(x1, y1))
    ensures cmd.to == ToDevice(ctx, useCamera, Point(x2, y2))
  {
    var sx1 := if useCamera then ctx.camera.x + x1 * ctx.scale else x1 * ctx.scale;
    var sy1 := if useCamera then ctx.camera.y + y1 * ctx.scale else y1 * ctx.scale;
    var sx2 := if useCamera then ctx.camera.x + x2 * ctx.scale else x2 * ctx.scale;
    var sy2 := if useCamera then ctx.camera.y + y2 * ctx.scale else y2 * ctx.scale;
    Line(Point(sx1, sy1), Point(sx2, sy2), color)
  }

  /** A line drawn from a rectangle's corner starts exactly where that
      rectangle is placed, with or without the camera. */
  lemma LineMeetsRectangle(ctx: RenderContext, rect: Rect, color: Color, filled: bool, useCamera: bool, x2: int, y2: int)
    ensures var r := DrawRectangle(ctx, rect, color, filled, useCamera).dst;
            DrawLine(ctx, rect.x, rect.y, x2, y2, color, useCamera).from == Point(r.x, r.y)
  {
  }

  /** `DrawCircle`, centre only: the 360 sampled circumference points are
      floating-point trigonometry and are not modelled. */
  function DrawCircle(ctx: RenderContext, x: int, y: int, radius: int, color: Color, useCamera: bool): (cmd: DrawCmd)
    ensures cmd.Circle? && cmd.radius == radius && cmd.color == color
    ensures cmd.center == ToDevice(ctx, useCamera, Point(x, y))
  {
    var cx := (if useCamera then ctx.camera.x else 0) + x * ctx.scale;
    var cy := (if useCamera then ctx.camera.y else 0) + y * ctx.scale;
    Circle(Point(cx, cy), radius, color)
  }

  /** `DrawTexture`. The position applies the camera scaled by the parallax
      `speed` and truncated to an integer; the destination size is the
      section's size, or the texture's own size (obtained from the backend,
      `textureSize`) when no section is given. A failed size query is the
      one error. A pivot is passed on only when both coordinates differ from
      the `INT_MAX` default. */
  function DrawTexture(ctx: RenderContext, texture: TextureId, x: int, y: int, section: Option<Rect>,
                       speed: real, angle: real, pivotX: int, pivotY: int,
                       textureSize: Option<Point>): (r: Result<DrawCmd, RenderError>)
    ensures r.Err? <==> section.None? && textureSize.None?
    ensures r.Ok? ==> r.value.Blit? && r.value.texture == texture && r.value.src == section && r.value.angle == angle
    ensures r.Ok? ==> r.value.dst.x == TruncToInt(ctx.camera.x as real * speed) + x * ctx.scale
    ensures r.Ok? ==> r.value.dst.y == TruncToInt(ctx.camera.y as real * speed) + y * ctx.scale
    ensures r.Ok? && section.Some? ==> r.value.dst.w == section.value.w * ctx.scale && r.value.dst.h == section.value.h * ctx.scale
    ensures r.Ok? && section.None? ==> r.value.dst.w == textureSize.value.x * ctx.scale && r.value.dst.h == textureSize.value.y * ctx.scale
    ensures r.Ok? ==> (r.value.pivot.Some? <==> pivotX != IntMax && pivotY != IntMax)
  {
    var px := TruncToInt(ctx.camera.x as real * speed) + x * ctx.scale;
    var py := TruncToInt(ctx.camera.y as real * speed) + y * ctx.scale;
    var size :=
      if section.Some? then Some(Point(section.value.w, section.value.h))
      else textureSize;
    match size
    case None => Err(TextureSizeUnavailable)
    case Some(wh) =>
      var pivot := if pivotX != IntMax && pivotY != IntMax then Some(Point(pivotX, pivotY)) else None;
      Ok(Blit(texture, section, Rect(px, py, wh.x * ctx.scale, wh.y * ctx.scale), angle, pivot))
  }

  /** At the default parallax speed 1 a texture is placed exactly like a
      rectangle drawn with the camera. */
  lemma TextureAtUnitSpeedFollowsCamera(ctx: RenderContext, texture: TextureId, x: int, y: int, section: Option<Rect>,
                                        angle: real, pivotX: int, pivotY: int, textureSize: Option<Point>)
    requires section.Some? || textureSize.Some?
    ensures var r := DrawTexture(ctx, texture, x, y, section, 1.0, angle, pivotX, pivotY, textureSize);
            r.Ok? && Point(r.value.dst.x, r.value.dst.y) == ToDevice(ctx, true, Point(x, y))
  {
    TruncOfWhole(ctx.camera.x);
    TruncOfWhole(ctx.camera.y);
  }

  /** At parallax speed 0 a texture ignores the camera entirely. */
  lemma TextureAtZeroSpeedIgnoresCamera(ctx: RenderContext, texture: TextureId, x: int, y: int, section: Option<Rect>,
                                        angle: real, pivotX: int, pivotY: int, textureSize: Option<Point>)
    requires section.Some? || textureSize.Some?
    ensures var r := DrawTexture(ctx, texture, x, y, section, 0.0, angle, pivotX, pivotY, textureSize);
            r.Ok? && Point(r.value.dst.x, r.value.dst.y) == ToDevice(ctx, false, Point(x, y))
  {
  }
}
