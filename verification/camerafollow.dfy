/** The camera follow-and-clamp block of `Player::Draw`.

    Each axis keeps the player at a fixed on-screen anchor (a quarter of the
    view width horizontally, half the view height vertically), then clamps
    the offset to at most 0 (never scroll past the map's left/top edge) and,
    only when the map is larger than the view on that axis, to at least
    `-(map - view)` (never scroll past the right/bottom edge). The anchor
    arithmetic is done in floating point and converted with a C cast, which
    truncates toward zero. */
module CameraFollow {
  import opened CNumeric

  /** The two clamps of one axis. */
  function ClampAxis(desired: int, mapExtent: int, viewExtent: int): (c: int)
    ensures c <= 0
    ensures mapExtent > viewExtent ==> -(mapExtent - viewExtent) <= c
    ensures c == desired <==> desired <= 0 && (mapExtent > viewExtent ==> -(mapExtent - viewExtent) <= desired)
    ensures c != desired ==> (c == 0 && desired > 0) || (mapExtent > viewExtent && c == -(mapExtent - viewExtent) && desired < c)
  {
    var upper := if desired > 0 then 0 else desired;
    if mapExtent > viewExtent && upper < -(mapExtent - viewExtent) then -(mapExtent - viewExtent) else upper
  }

  /** The unclamped horizontal offset: `(int)(-px + viewW / 4.0)`. */
  function DesiredX(px: int, viewW: int): int {
    TruncToInt(-(px as real) + viewW as real / 4.0)
  }

  /** The unclamped vertical offset: `(int)(-py + viewH / 2.0)`. */
  function DesiredY(py: int, viewH: int): int {
    TruncToInt(-(py as real) + viewH as real / 2.0)
  }

  /** The horizontal camera offset for a player at world x `px`. */
  function CameraX(px: int, viewW: int, mapW: int): (c: int)
    ensures c <= 0
    ensures mapW > viewW ==> -(mapW - viewW) <= c
    ensures mapW <= viewW ==> c == (if DesiredX(px, viewW) > 0 then 0 else DesiredX(px, viewW))
  {
    ClampAxis(DesiredX(px, viewW), mapW, viewW)
  }

  /** The vertical camera offset for a player at world y `py`. */
  function CameraY(py: int, viewH: int, mapH: int): (c: int)
    ensures c <= 0
    ensures mapH > viewH ==> -(mapH - viewH) <= c
    ensures mapH <= viewH ==> c == (if DesiredY(py, viewH) > 0 then 0 else DesiredY(py, viewH))
  {
    ClampAxis(DesiredY(py, viewH), mapH, viewH)
  }

  /** Clamping an already clamped offset changes nothing. */
  lemma ClampIdempotent(desired: int, mapExtent: int, viewExtent: int)
    ensures ClampAxis(ClampAxis(desired, mapExtent, viewExtent), mapExtent, viewExtent)
         == ClampAxis(desired, mapExtent, viewExtent)
  {
  }

  /** The clamp is the projection of the desired offset onto the allowed
      range `[-(map - view), 0]` when the map is larger than the view, and
      onto `(-inf, 0]` otherwise. */
  lemma ClampIsProjection(desired: int, mapExtent: int, viewExtent: int)
    ensures var lo := -(mapExtent - viewExtent);
            var c := ClampAxis(desired, mapExtent, viewExtent);
            if mapExtent > viewExtent then c == (if desired > 0 then 0 else if desired < lo then lo else desired)
            else c == (if desired > 0 then 0 else desired)
  {
  }

  /** When the map is larger than the view, the visible world interval
      `[-c, -c + view]` lies inside the map `[0, map]`. */
  lemma ViewInsideMap(desired: int, mapExtent: int, viewExtent: int)
    requires mapExtent > viewExtent
    ensures var c := ClampAxis(desired, mapExtent, viewExtent);
            0 <= -c && -c + viewExtent <= mapExtent
  {
  }

  /** When no clamp applies, the player's on-screen x (`px + camX`) is within
      one pixel of the quarter-width anchor. */
  lemma HorizontalAnchor(px: int, viewW: int, mapW: int)
    requires CameraX(px, viewW, mapW) == DesiredX(px, viewW)
    ensures -4 < 4 * (px + CameraX(px, viewW, mapW)) - viewW < 4
  {
  }

  /** When no clamp applies, the player's on-screen y (`py + camY`) is within
      one pixel of the half-height anchor. */
  lemma VerticalAnchor(py: int, viewH: int, mapH: int)
    requires CameraY(py, viewH, mapH) == DesiredY(py, viewH)
    ensures -2 < 2 * (py + CameraY(py, viewH, mapH)) - viewH < 2
  {
  }

  /** Moving right never moves the camera offset right. */
  lemma CameraXMonotone(px1: int, px2: int, viewW: int, mapW: int)
    requires px1 <= px2
    ensures CameraX(px2, viewW, mapW) <= CameraX(px1, viewW, mapW)
  {
    TruncMonotone(-(px2 as real) + viewW as real / 4.0, -(px1 as real) + viewW as real / 4.0);
  }

  /** Moving down never moves the camera offset down. */
  lemma CameraYMonotone(py1: int, py2: int, viewH: int, mapH: int)
    requires py1 <= py2
    ensures CameraY(py2, viewH, mapH) <= CameraY(py1, viewH, mapH)
  {
    TruncMonotone(-(py2 as real) + viewH as real / 2.0, -(py1 as real) + viewH as real / 2.0);
  }

  /** Player at x 500, view 800 wide, map 2000 wide: the anchor is 200, the
      desired offset -300 lies inside `[-1200, 0]`, so the camera is at -300. */
  lemma WideMapExample()
    ensures CameraX(500, 800, 2000) == -300
  {
  }

  /** A map exactly as tall as the view does not get the lower clamp: near
      the top the offset is 0, but further down it goes negative, so the view
      shows area below the map. */
  lemma EqualExtentStillScrolls()
    ensures CameraY(100, 480, 480) == 0
    ensures CameraY(400, 480, 480) == -160
  {
  }
}
