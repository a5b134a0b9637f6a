# Player controller, camera follow and scaled drawing primitives

This project is a Dafny model of the core of a small 2D platformer engine. It covers three parts:

- **Drawing primitives** (`Render.cpp`). These are the scaled, camera-aware immediate-mode calls: textured quad, filled or outline rectangle, line and circle centre. They also include the 5×7 bitmap font: glyph lookup, bit decoding and text layout.
- **Camera follow-and-clamp** (inside `Player::Draw`). It keeps the player at a fixed screen anchor and stops at the map's edges.
- **Player controller** (`Player.cpp`). The per-frame velocity pipeline, jumping, teleporting, collision callbacks and the free-flying god mode.

Modules:

| module | file | contents |
|---|---|---|
| `Wrappers` | `wrappers.dfy` | `Option`, `Result` |
| `CNumeric` | `cnumeric.dfy` | C's float-to-int cast (truncation toward zero) |
| `Render` | `render.dfy` | logical↔device transform, `DrawTexture`, `DrawRectangle`, `DrawLine`, `DrawCircle` |
| `GlyphFont` | `glyphfont.dfy` | the glyph table, `toupper`, bit tests, which cells a glyph lights |
| `TextRender` | `textrender.dfy` | `DrawGlyph` and `DrawText` as loop methods, the closed-form text layout they compute |
| `CameraFollow` | `camerafollow.dfy` | the per-axis camera clamp of `Player::Draw` |
| `Player` | `player.dfy` | player state, the `Update` pipeline, collisions, god mode, `Draw`, runs of events |

### How the model is set up

- **Draw calls as records.** Each draw call is modelled as the record it hands to the graphics backend (`DrawCmd`), in device pixels.
- **Physics as values and commands.** The physics engine is not modelled:
  - What the player reads from it during a frame is a value (`PhysicsView`).
  - What the player asks of it is an ordered list of commands (`PhysicsCmd`).
  - The velocity the body keeps at the end of a frame is the last `SetVelocity` in that list.
- **Input.** Input is a snapshot of the six polled keys.
- **Velocities.** These are reals.
- **Text.** Text is a C string: drawing stops at the first `'\0'`.
- **Glyph table.** The font is held as one indexed table. A second transcription, written as the source's `switch` (`GlyphFont.SwitchRows`), checks that every character selects the right glyph.

### Behaviour of the code worth knowing

- **Camera offset when the map is no larger than the view.** Only the upper clamp applies, so the offset goes negative once the player is past the anchor (`CameraFollow.EqualExtentStillScrolls`).
- **Collisions in god mode.** Collision handling ignores *every* collision in god mode, including platforms. So landing does not clear the jump flag while flying.
- **Jumping in god mode.** The jump key is still honoured in god mode: the impulse is issued and the flag set.
- **Order of the god-mode override.** God mode does not replace the velocity before the commit. The normal velocity is committed first, and a second `SetLinearVelocity` then overwrites it. The member `velocity` keeps the normal value.
- **Animation.** The animation is not re-derived every frame. It changes only on movement, jump and platform landing, and is otherwise kept.
- **Movement keys.** Movement and god-mode flight react only to a key being held (`KEY_REPEAT`), not to the frame it goes down.

## Model

| member | source | states |
|---|---|---|
| CNumeric.TruncToInt | src/Player.cpp:137 | the C `(int)` cast of a float: the integer nearest zero within distance less than 1 |
| CNumeric.TruncMonotone | src/Player.cpp:161 | the cast preserves order, which the camera's monotonicity rests on |
| Render.ToDevice | src/Render.cpp:211-220 | a logical point maps to `camera + p*scale`, or to `p*scale` without the camera |
| Render.ToDeviceRoundTrip | src/Render.cpp:211-220 | with a non-zero scale every logical point is recovered from its device image |
| Render.ToLogicalRoundTrip | src/Render.cpp:211-220 | every device point with a logical preimage is the image of that preimage |
| Render.MulDivCancel | src/Render.cpp:211-222 | scaling by a non-zero integer and dividing again is exact, which the round trip needs |
| Render.DrawRectangle | src/Render.cpp:202-233 | filled iff requested; the colour is kept; the corner goes through the shared transform; the size is scaled |
| Render.CameraOnlyTranslates | src/Render.cpp:211-220 | drawing with the camera differs from drawing without it only by the camera offset |
| Render.DrawLine | src/Render.cpp:235-247 | both endpoints go through the same transform as rectangles |
| Render.LineMeetsRectangle | src/Render.cpp:211-244 | a line drawn from a rectangle's corner starts where that rectangle is placed |
| Render.DrawCircle | src/Render.cpp:249-260 | the centre goes through the shared transform; the radius is unscaled |
| Render.DrawTexture | src/Render.cpp:146-200 | the position is the truncated parallax camera plus `x*scale`; the size comes from the section or else the texture; it fails iff neither is known; a pivot is passed iff neither coordinate is `INT_MAX` |
| Render.TextureAtUnitSpeedFollowsCamera | src/Render.cpp:151-153 | at speed 1 a texture is placed exactly like a rectangle drawn with the camera |
| Render.TextureAtZeroSpeedIgnoresCamera | src/Render.cpp:151-153 | at speed 0 a texture ignores the camera |
| GlyphFont.ToUpper | src/Render.cpp:321-322 | `toupper`: only `a`–`z` change, each to its capital |
| GlyphFont.LettersShape | src/Render.cpp:275-300 | each of the 26 letter glyphs has 7 rows of 5 bits and lights at least one cell |
| GlyphFont.DigitsShape | src/Render.cpp:302-311 | each of the 10 digit glyphs has 7 rows of 5 bits and lights at least one cell |
| GlyphFont.PunctuationShape | src/Render.cpp:313-318 | each of the 6 punctuation glyphs has 7 rows of 5 bits and lights at least one cell |
| GlyphFont.FontShape | src/Render.cpp:274-318 | every one of the 42 glyphs of the font is well formed and visible |
| GlyphFont.GlyphIndex | src/Render.cpp:324-345 | an upper-cased character selects a glyph of the font exactly when it is a capital, a digit or one of `( ) / - : .` |
| GlyphFont.GlyphRowsWellFormed | src/Render.cpp:274-345 | whatever the character, the selected rows are 7 rows of 5 bits (the blank glyph included) |
| GlyphFont.GlyphRowsVisibleIff | src/Render.cpp:320-345 | after upper-casing, a character gets a glyph other than the blank one iff it is supported |
| GlyphFont.GlyphIndexInjective | src/Render.cpp:324-343 | no two characters of the set share a case of the switch |
| GlyphFont.GlyphRows | src/Render.cpp:320-345 | the lookup (blank default, `toupper`, then the switch) always yields 7 rows, the blank glyph included |
| GlyphFont.FirstLettersMatchSwitch | src/Render.cpp:275-287 | the table's glyphs for `A`–`M` are exactly those the switch's cases select |
| GlyphFont.LastLettersMatchSwitch | src/Render.cpp:288-300 | the table's glyphs for `N`–`Z` are exactly those the switch's cases select |
| GlyphFont.DigitsMatchSwitch | src/Render.cpp:302-311 | the table's digit glyphs are exactly those the switch's cases select |
| GlyphFont.PunctuationMatchSwitch | src/Render.cpp:313-318 | each of `( ) / - : .` is indexed into the punctuation part, and its glyph is the one the switch selects |
| GlyphFont.FontParts | src/Render.cpp:274-318 | glyph `g` of the font is letter `g`, digit `g - 26` or punctuation mark `g - 36` |
| GlyphFont.GlyphRowsMatchSwitch | src/Render.cpp:320-345 | for every character, the indexed lookup gives exactly the rows that the source's switch on its upper-cased form gives, blank by default |
| GlyphFont.GlyphRowsCaseInsensitive | src/Render.cpp:321-322 | a lower-case letter uses the same rows as its capital |
| GlyphFont.BitsBelowIsPopCount | src/Render.cpp:350-352 | counting bits 4..0 of a 5-bit row counts all its set bits |
| GlyphFont.PopCountPositive | src/Render.cpp:352 | a row lights some cell iff it is non-zero |
| GlyphFont.RowPixelsCount | src/Render.cpp:350-356 | a row yields one pixel per set bit |
| GlyphFont.RowsPixelsCount | src/Render.cpp:347-358 | the rows yield as many pixels as they have set bits |
| GlyphFont.GlyphPixelCount | src/Render.cpp:320-358 | a glyph draws exactly its rows' population count of pixels |
| GlyphFont.RowsPopCountZero | src/Render.cpp:347-358 | the rows light nothing iff every row is zero |
| GlyphFont.GlyphSizeZeroIff | src/Render.cpp:320-358 | a glyph lights no cell iff its character is unsupported |
| GlyphFont.GlyphBlankIff | src/Render.cpp:320-358 | a glyph draws nothing iff its character is unsupported |
| GlyphFont.GlyphCaseInsensitive | src/Render.cpp:321-322 | a lower-case letter draws exactly the pixels of its capital |
| GlyphFont.RowPixelsAreLitCells | src/Render.cpp:350-356 | every pixel a row draws is at a column whose bit `4 - i` is set |
| GlyphFont.LitCellsAreRowPixels | src/Render.cpp:350-356 | every set bit of a row is drawn |
| GlyphFont.RowsPixelsAreLitCells | src/Render.cpp:347-358 | every pixel of a glyph is at a lit cell `(i, j)` |
| GlyphFont.LitCellsAreRowsPixels | src/Render.cpp:347-358 | every lit cell `(i, j)` is drawn |
| GlyphFont.PixelInjective | src/Render.cpp:354 | with a positive scale, distinct cells give distinct pixel rectangles |
| GlyphFont.GlyphPixelLit | src/Render.cpp:347-358 | cell `(i, j)` is drawn iff bit `4 - i` of row `j` is set |
| GlyphFont.GlyphWithinBox | src/Render.cpp:347-358 | every pixel is `scale`×`scale` and lies in the 5×7-cell box at `(x, y)` |
| GlyphFont.PixelInBox | src/Render.cpp:354 | the rectangle of cell `(i, j)` of the 5×7 grid lies inside the glyph's box |
| TextRender.PixelCommandsAppend | src/Render.cpp:355 | drawing pixels in sequence concatenates their rectangle commands |
| TextRender.DrawGlyphRow | src/Render.cpp:349-357 | the inner loop emits one filled rectangle per lit cell of the row, left to right |
| TextRender.DrawGlyph | src/Render.cpp:272-359 | the glyph emits, in row-major order, a filled rectangle through `DrawRectangle` for each lit cell |
| TextRender.CLength | src/Render.cpp:365 | the loop runs to the first `'\0'` or the end of the text |
| TextRender.LineOfCountsNewlines | src/Render.cpp:367 | the line of character `k` is the number of newlines before it |
| TextRender.ColumnOfSinceNewline | src/Render.cpp:367-369 | the column of character `k` counts the characters since the last newline before it, none of which is a newline |
| TextRender.PenAtCell | src/Render.cpp:364-369 | the pen the loop carries is at `(x + 6*scale*column, y + 8*scale*line)` of the character |
| TextRender.NewlineStep | src/Render.cpp:367 | a newline moves the pen to the origin column one line down and places nothing |
| TextRender.GlyphStep | src/Render.cpp:368-369 | any other character is placed at the pen, which then moves one advance right |
| TextRender.PlacementsPixelsSnoc | src/Render.cpp:368 | drawing one more glyph appends its pixels to what was drawn |
| TextRender.DrawText | src/Render.cpp:362-371 | the commands are the filled cells of every glyph the text places, in order; the pen is kept in two variables as in the source |
| TextRender.TwoLineLayout | src/Render.cpp:362-371 | a text `a b NEWLINE c` places `a` at the origin, `b` one advance right, and `c` one line down at the origin column |
| TextRender.TwoLineExample | src/Render.cpp:362-371 | such a text draws exactly the pixels of its three glyphs at those places |
| TextRender.LayoutPixelCount | src/Render.cpp:365-370 | the text draws one pixel per lit cell of the glyphs of its non-newline characters |
| TextRender.TextPixelCountZeroIff | src/Render.cpp:365-370 | that count is zero iff every character is a newline or unsupported |
| TextRender.TextBlankIff | src/Render.cpp:320-370 | a text draws nothing iff every character before the terminator is a newline or unsupported |
| TextRender.PenPrefix | src/Render.cpp:364-369 | the pen position at a character depends only on the text before it |
| TextRender.LayoutPrefix | src/Render.cpp:365-370 | what the first `n` characters draw does not depend on the text after them |
| TextRender.ColumnOfPrefix | src/Render.cpp:367-369 | the column of a character depends only on the text before it |
| TextRender.LineOfPrefix | src/Render.cpp:367 | the line of a character depends only on the text before it |
| TextRender.TextStopsAtTerminator | src/Render.cpp:365 | nothing after the first `'\0'` is drawn |
| CameraFollow.ClampAxis | src/Player.cpp:142-155 | the offset is at most 0, and at least `-(map - view)` when the map is larger; it equals the desired offset iff that is already allowed |
| CameraFollow.CameraX | src/Player.cpp:136-157 | the horizontal offset is within the clamp bounds; with a map no wider than the view only the upper clamp applies |
| CameraFollow.CameraY | src/Player.cpp:160-176 | the same for the vertical offset with the half-height anchor |
| CameraFollow.ClampIdempotent | src/Player.cpp:142-155 | clamping twice is clamping once |
| CameraFollow.ClampIsProjection | src/Player.cpp:142-155 | the clamp is the projection onto `[-(map - view), 0]`, or onto `(-inf, 0]` for a small map |
| CameraFollow.ViewInsideMap | src/Player.cpp:147-155 | with a larger map, the visible interval lies inside the map |
| CameraFollow.HorizontalAnchor | src/Player.cpp:136-137 | when unclamped, the player's screen x is within a pixel of a quarter of the view width |
| CameraFollow.VerticalAnchor | src/Player.cpp:160-161 | when unclamped, the player's screen y is within a pixel of half the view height |
| CameraFollow.CameraXMonotone | src/Player.cpp:136-157 | moving right never moves the camera offset right |
| CameraFollow.CameraYMonotone | src/Player.cpp:160-176 | moving down never moves the camera offset down |
| CameraFollow.WideMapExample | src/Player.cpp:136-157 | player x 500, view 800, map 2000 gives offset -300 |
| CameraFollow.EqualExtentStillScrolls | src/Player.cpp:160-176 | a map as tall as the view still scrolls below its edge once the player is past the anchor |
| Player.GetPhysicsValues | src/Player.cpp:80-84 | the horizontal velocity is reset to 0; the vertical one comes from the body |
| Player.Move | src/Player.cpp:86-97 | a held D gives `speed`, else a held A gives `-speed`, else nothing changes; either key selects "move" |
| Player.Jump | src/Player.cpp:99-106 | exactly when SPACE goes down and not jumping: one upward impulse, jumping set, "jump" selected; otherwise nothing |
| Player.Teleport | src/Player.cpp:73-78 | T going down moves the body to (96, 96), whatever the mode |
| Player.ApplyPhysics | src/Player.cpp:108-116 | while jumping the vertical velocity is the engine's resolved one; the velocity is committed |
| Player.GodVelocity | src/Player.cpp:248-256 | free flight is `8*(D - A)` across and `8*(S - W)` down, from held keys only |
| Player.HandleGodMode | src/Player.cpp:243-258 | outside god mode nothing is issued; in it the body's velocity is overwritten with the free-flight one |
| Player.Step | src/Player.cpp:57-66 | one frame: the jump flag, animation and member velocity match the direct definitions; exactly one impulse iff a jump was triggered; a teleport iff T went down; the body ends with the free-flight velocity in god mode and the normal one otherwise |
| Player.StepCommands | src/Player.cpp:57-66 | the frame's command order makes the god-mode override the last velocity issued |
| Player.ImpulsesAppend | src/Player.cpp:102 | impulses of concatenated command lists add up |
| Player.OnCollision | src/Player.cpp:190-212 | god mode ignores every collision; a platform clears jumping and selects "idle"; only an item plays the sound and destroys the other entity |
| Player.OnCollisionEnd | src/Player.cpp:214-230 | the state never changes; only log lines, and none for other types |
| Player.ToggleGodMode | src/Player.cpp:233-241 | the mode flips; turning it on stops the body, turning it off issues nothing |
| Player.ToggleTwice | src/Player.cpp:233-241 | toggling twice restores the player state |
| Player.GodModeEntryStops | src/Player.cpp:233-258 | entering god mode with residual velocity and no keys leaves the body at exactly zero that frame |
| Player.GodModeSupersedes | src/Player.cpp:63-66 | in god mode the committed velocity does not depend on what the engine reports |
| Player.LandingReenablesJump | src/Player.cpp:195-199 | after a platform landing outside god mode, the next SPACE press gives exactly one impulse |
| Player.ImpulsesBoundedByLandings | src/Player.cpp:101-104 | over any run of frames, collisions and toggles, impulses are at most the landings plus one if starting grounded |
| Player.Draw | src/Player.cpp:118-180 | the camera is set to exactly the clamped follow offsets `CameraX`/`CameraY` of the body position, which lie in the clamp bounds; the sprite is the animation frame drawn centred on the body with that camera |
| Player.SpriteAtAnchor | src/Player.cpp:136-179 | at scale 1 and unclamped, the sprite centre is within a pixel of a quarter of the view width |
| Player.Update | src/Player.cpp:57-71 | the velocity pipeline, then the draw: the jump flag, animation and member velocity follow the direct definitions; one impulse iff a jump was triggered; a teleport iff T went down; the body ends with the mode's velocity; the camera is exactly the clamped follow offset; the sprite frame is blitted |

## Left out

- Success and failure of the graphics backend calls (`SDL_RenderTextureRotated`, `SDL_RenderFillRect`, `SDL_RenderLine`, ...). They are foreign calls; only the records passed to them are modelled.
- The 360 circumference points of `DrawCircle`. They are floating-point trigonometry; only the centre and radius are modelled.
- Render's lifecycle (`Awake`, `Start`, `PreUpdate`, `Update`, `PostUpdate`, `CleanUp`), background colour and viewport calls. These are window setup and backend calls.
- The `PostUpdate` overlay, including the `background.g` argument passed where blue is expected. It is outside the modelled core.
- The player's `Awake`, `Start` and `CleanUp`. These cover asset loading, physics body creation and texture release; `Player.Initial` records the state `Start` leaves.
- The Box2D physics engine. Velocities and positions it reports are inputs, and what the player asks of it is output.
- `anims.Update(dt)` and the frame sequence of an animation. Only which animation is selected is modelled; the current frame is an input of `Draw`.
- Audio loading and playback beyond the `PlayFx` effect record, and logging beyond `Log` records.
- Player.ToggleGodMode: the `God Mode: ON` / `God Mode: OFF` log line is not returned; only the state change and the physics command are modelled, as logging has no effect on the game.
- TextRender.DrawText: each character of the text stands for one byte of the C string; multi-byte encodings such as UTF-8 (where one character spans several bytes and so several pen advances) are not modelled.
- The `pbody` null checks in `ToggleGodMode` and `HandleGodMode`. The body always exists after `Start`.
- Player.Draw: the map size is a float in the source and is taken here as whole pixels.
- Float rounding of velocities and of the camera's float anchor is not modelled; reals are exact.
- Render.DrawTexture: the parallax product `camera * speed` is taken as an exact real before the `(int)` cast, and the device rectangle's int-to-float conversion as exact. C rounds the product to `float` first, so for some speeds the truncated offset differs by one (camera.x 10 at speed `0.7f` gives 7 in C and 6 here). At the default speed 1 that `Player::Draw` uses, the product is exact and both agree.
- Player.Run: collision callbacks' effects (sound, destroy, log) are dropped from a run; only state and physics commands are kept.
- 32-bit integer overflow of coordinates and of `x * scale` is not modelled; all integers are unbounded.
- C's `char` signedness is not modelled: `toupper` is applied to characters, and only `a`–`z` change.
