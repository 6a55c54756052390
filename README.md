# graphiclity core in Dafny

graphiclity is an immediate-mode 2D drawing library. Each frame, user code
records drawing calls on a `Graphics` value. At the end of the frame, the
pixels backend rasterizes the recorded commands, in order, into an RGBA frame
buffer of `logic_width * logic_height * 4` bytes. This project models that
core:

- `vector.dfy` (`Vectors`): the integer point `Vec2`, its conversions and its arithmetic.
- `color.dfy` (`Colors`): `Color`, `Color::rgb` and the named constants.
- `config.dfy` (`Configs`): `Config`, its `Default`, and `ConfigBuilder` with `build`.
- `commands.dfy` (`Commands`): the `DrawCommand` union the rasterizer matches on.
- `graphics.dfy` (`Recorder`): the `Graphics` recorder as a class whose `commands`
  field its methods extend. It also holds the normalisation rules each method applies
  before recording, as functions returning an optional command.
- `backend.dfy` (`Backend`): `PixelsBackend` as a class over a frame `array<bv8>`.
  Each drawing method is proved to leave the frame equal to a specification function
  of the old frame.
- The specification functions, with the properties proved about them:
  - `frame.dfy` (`Frame`): pixel addressing, `set_pixel` and `clear`.
  - `line.dfy` (`Lines`): Bresenham lines.
  - `circle.dfy` (`Circles`): midpoint circles.
  - `rect.dfy` (`Rects`): clamped rectangle fill.
  - `text.dfy` (`Glyphs`): 8x8 bitmap text.
  - `render.dfy` (`Rendering`): the whole command list.
- `wrappers.dfy` (`Wrappers`): an `Option` type standing in for Rust's.

Each primitive is described by the list of points it writes, in write order.
The effect of a list of points on a frame is `Frame.Paint`: one guarded
`set_pixel` per point, applied left to right. Each backend method ensures
`frame[..] == <specification>(old(frame[..]), ...)`. The pixel-level
properties are lemmas about those specifications. Examples:

- which pixels a rectangle, a line, a circle or a text sets;
- that a later write wins;
- that a trailing `Clear` erases all earlier commands.

Behaviour of the code worth knowing:

- `Config::default()` and `ConfigBuilder::build` use the title "Graphiclity
  Window" and 800x600 for both sizes.
- Line rasterization is not symmetric in its end points. Rasterizing
  (0,0)→(2,1) visits (1,1), while (2,1)→(0,0) visits (1,0). See
  `Lines.LineExampleForward` and `Lines.LineExampleBackward`.
- The circle loop takes at most one `x` step per iteration, under a single
  `if err > 0`.
- The backend rasterizes `Circle` commands, but no `Graphics` method records one.
- `Graphics` records a pixel as `(x as u32, y as u32)` and a rectangle as four
  `u32` fields, and `render` matches on `Vec2` fields. The model uses the
  `Vec2` shape throughout (`Commands.DrawCommand`). The recorder stores
  its normalised, non-negative values in it.

## Model

| member | source | states |
|---|---|---|
| Vectors.New | src/vector.rs:13-15 | `Vec2::new(x, y)` has exactly the coordinates `x` and `y` |
| Vectors.ClampToZero | src/vector.rs:17 | `max(n, 0)` is never below `n`, is `n` when `n >= 0` and 0 otherwise |
| Vectors.AsU32Tuple | src/vector.rs:16-18 | `as_u32_tuple` never lowers a component, turns each negative one into 0, and leaves a non-negative point unchanged |
| Vectors.FromPair | src/vector.rs:21-25 | converting an `(i32, i32)` pair gives the point `Vec2::new` builds from its components, and its coordinates are the pair |
| Vectors.Add | src/vector.rs:37-42 | subtracting either operand from `a + b` gives the other operand |
| Vectors.Sub | src/vector.rs:43-48 | `a - b` is the vector that, added to `b` component by component, gives `a` |
| Vectors.SubUndoesAdd | src/vector.rs:37-48 | `+` and `-` are componentwise and `(a + b) - b == a`, `(a - b) + b == a` |
| Colors.Rgb | src/color.rs:24-26 | `Color::rgb` keeps the three channels and is fully opaque |
| Colors.NamedColors | src/color.rs:12-20 | the eight constants are black, white, the three primaries and the three secondaries, all opaque and saturated |
| Colors.Bytes | src/backends/pixels.rs:171 | a pixel's four bytes are R, G, B, A in that order |
| Configs.Default | src/config.rs:80-90 | the default is "Graphiclity Window", resizeable, 800x600 logical and 800x600 window |
| Configs.Builder | src/config.rs:68-77 | a fresh builder has every field unset |
| Configs.WithTitle | src/config.rs:34-37 | the built configuration has the given title; no other builder field changes |
| Configs.SetWindowSize | src/config.rs:39-43 | the built configuration has the given window width and height; no other builder field changes |
| Configs.SetLogicalSize | src/config.rs:45-49 | the built configuration has the given logical width and height; no other builder field changes |
| Configs.SetResizeable | src/config.rs:50-53 | the built configuration has the given resizeable flag; no other builder field changes |
| Configs.Build | src/config.rs:55-64 | each field set on the builder is taken as is, each unset field takes the default's value |
| Configs.BuildFreshIsDefault | src/config.rs:55-90 | building a fresh builder gives exactly `Config::default()` |
| Configs.TitleAndResizeableSetters | src/config.rs:34-53 | `with_title` and `set_resizeable` set only their own field, and the built configuration changes in that field only |
| Configs.SizeSetters | src/config.rs:39-49 | `set_window_size` and `set_logical_size` set both dimensions of their pair and nothing else, before and after `build` |
| Configs.LaterSetterWins | src/config.rs:34-53 | a second call to the same setter overrides the first |
| Configs.DistinctSettersCommute | src/config.rs:34-53 | any two of the four setters commute when they set different fields (all six pairs) |
| Frame.PixelIndexBounds | src/backends/pixels.rs:169 | an in-canvas pixel's index `(y * w + x) * 4` leaves room for four bytes inside the frame |
| Frame.PixelIndexInjective | src/backends/pixels.rs:169 | distinct in-canvas pixels have distinct indices |
| Frame.PutBytes | src/backends/pixels.rs:171 | `copy_from_slice` at `idx` replaces bytes `idx .. idx + 3` by the colour's bytes and keeps every other byte |
| Frame.Plot | src/backends/pixels.rs:164-172 | `set_pixel` keeps the frame's length and returns the frame unchanged outside the canvas (the bytes it changes inside are stated by `Frame.PlotBytes`) |
| Frame.PlotBytes | src/backends/pixels.rs:164-172 | `set_pixel` returns early outside the canvas; inside it changes exactly that pixel's four bytes |
| Frame.PlotPixel | src/backends/pixels.rs:164-172 | at the pixel level, `set_pixel(p)` makes `p` hold the colour and leaves every other pixel as it was |
| Frame.PaintPixel | src/backends/pixels.rs:164-172 | after a sequence of `set_pixel` calls, an in-canvas pixel holds the colour exactly when it is one of the points, else its old bytes |
| Frame.PaintOffCanvas | src/backends/pixels.rs:164-167 | `set_pixel` calls at points none of which is on the canvas change nothing |
| Frame.Cleared | src/backends/pixels.rs:174-180 | `clear` keeps the frame's length (the bytes are stated by `Frame.ClearedPixels`) |
| Frame.ClearedPixels | src/backends/pixels.rs:174-180 | after `clear(c)` every pixel holds exactly `c`'s four bytes |
| Lines.LineSetup | src/backends/pixels.rs:106-111 | the loop constants aim at `p2`: `dx >= 0`, `dy <= 0`, each step sign is 1 or -1, and `dx` steps of `sx` (resp. `-dy` steps of `sy`) lead from `p1` to `p2` |
| Lines.LineStep | src/backends/pixels.rs:117-124 | one iteration moves each coordinate by nothing or by one step of its sign (how the error term follows is stated by `Lines.LineStepKeepsInv`) |
| Lines.LineStartInv | src/backends/pixels.rs:106-115 | the initial `dx`, `dy`, steps and `err = dx + dy` satisfy the loop invariant: the error term equals `dx + dy - dy*rx - dx*ry` for the steps remaining |
| Lines.NoOvershootX | src/backends/pixels.rs:123 | at the end column with rows left, the x test fails, so `x` never passes `x1` |
| Lines.NoOvershootY | src/backends/pixels.rs:124 | at the end row with columns left, the y test fails, so `y` never passes `y1` |
| Lines.ErrForStep | src/backends/pixels.rs:123-124 | an x step adds `dy` to the error term, a y step adds `dx` |
| Lines.LineStepKeepsInv | src/backends/pixels.rs:117-125 | an iteration away from the end keeps the invariant, moves one unit step and gets strictly closer, so the loop terminates |
| Lines.LinePointsFrom | src/backends/pixels.rs:117-125 | the points written from a cursor start at that cursor |
| Lines.LinePointsFromShape | src/backends/pixels.rs:117-125 | those points end at `p2`, reach it nowhere earlier, move by unit steps and stay in the box spanned by the cursor and `p2` |
| Lines.LinePointsFromStep | src/backends/pixels.rs:117-125 | away from the end, the points are the cursor followed by the points from the next cursor |
| Lines.LinePoints | src/backends/pixels.rs:105-126 | `draw_line(p1, p2)` writes `p1` first and `p2` last and never earlier, by unit steps, inside the box spanned by `p1` and `p2` |
| Lines.PaintLine | src/backends/pixels.rs:105-126 | `draw_line` keeps the frame's length (its pixels are stated by `Lines.LinePixels`) |
| Lines.LinePixels | src/backends/pixels.rs:105-126 | both in-canvas end points get the colour; no pixel outside the box spanned by the end points changes |
| Lines.OffCanvasLineInvisible | src/backends/pixels.rs:118-120 | a line with both ends left of, or both above, the canvas changes nothing |
| Lines.ExampleSteps | src/backends/pixels.rs:106-124 | the loop states of the lines (0,0)→(2,1) and (2,1)→(0,0), iteration by iteration |
| Lines.TwoStepTrace | src/backends/pixels.rs:117-125 | a line that ends after two iterations writes its start, the middle cursor and its end |
| Lines.LineExampleForward | src/backends/pixels.rs:105-126 | (0,0)→(2,1) writes (0,0), (1,1), (2,1) |
| Lines.LineExampleBackward | src/backends/pixels.rs:105-126 | (2,1)→(0,0) writes (2,1), (1,0), (0,0): not the same pixels as the forward line |
| Circles.CircleStep | src/backends/pixels.rs:148-155 | each iteration increases `y` by one and decreases `x` by at most one |
| Circles.Octants | src/backends/pixels.rs:133-142 | each iteration writes eight points |
| Circles.CirclePointsFromBounded | src/backends/pixels.rs:132-156 | no point written from a loop state is further than the current `x` from the centre on either axis |
| Circles.CirclePointsFromHead | src/backends/pixels.rs:132-147 | while `x >= y`, the eight symmetric points of the current state are written |
| Circles.OctantsSymmetric | src/backends/pixels.rs:133-142 | the eight points of one iteration are closed under swapping the offsets and mirroring either axis |
| Circles.CirclePointsFromSymmetric | src/backends/pixels.rs:132-156 | every point set the loop writes from a state on is 8-way symmetric about the centre |
| Circles.CirclePoints | src/backends/pixels.rs:127-157 | a negative radius writes no point |
| Circles.CircleSymmetric | src/backends/pixels.rs:127-157 | `draw_circle` writes an 8-way symmetric point set: with `(cx + a, cy + b)` also `(cx + b, cy + a)`, `(cx - a, cy + b)` and `(cx + a, cy - b)` |
| Circles.CircleAxisPoints | src/backends/pixels.rs:128-147 | the four axis points at distance `radius` are written |
| Circles.PaintCircle | src/backends/pixels.rs:127-157 | `draw_circle` keeps the frame's length (its pixels are stated by `Circles.CirclePixels`) |
| Circles.CirclePixels | src/backends/pixels.rs:127-157 | a negative radius changes nothing; the in-canvas axis points get the colour; no pixel outside the square of half-side `radius` changes |
| Circles.CircleExample | src/backends/pixels.rs:127-157 | centre (50,50), radius 10 writes (60,50), (50,60), (40,50), (50,40) and not (61,50) |
| Rects.SaturatingAdd | src/backends/pixels.rs:80-81 | `u32::saturating_add` is the sum when it fits in a `u32`, and `u32::MAX` when the sum exceeds it |
| Rects.RectRegion | src/backends/pixels.rs:75-86 | the clamped start and end edges lie within the canvas |
| Rects.RowPointsCover | src/backends/pixels.rs:96-102 | one row of the fill writes exactly the points `(x, row)` with `start_x <= x < end_x` |
| Rects.RegionPointsCover | src/backends/pixels.rs:95-103 | the fill writes exactly the points of `[start_x, end_x) x [start_y, end_y)` |
| Rects.FillRect | src/backends/pixels.rs:74-104 | `draw_rect` keeps the frame's length (its pixels are stated by `Rects.RectPixels`) |
| Rects.RectPixels | src/backends/pixels.rs:74-104 | `draw_rect` sets exactly the in-canvas pixels of `[x, x + w) x [y, y + h)`, negative components first taken as 0; other pixels keep their bytes |
| Rects.EmptyRectUnchanged | src/backends/pixels.rs:88-90 | a rectangle whose clamped region is empty returns without changing the frame |
| Glyphs.RowBitsCover | src/backends/pixels.rs:53-66 | a glyph row writes exactly the points whose bit `byte & (1 << col)` is set |
| Glyphs.GlyphPointsCover | src/backends/pixels.rs:49-67 | a glyph writes exactly the points whose bit is set in their row |
| Glyphs.CharPoints | src/backends/pixels.rs:38-67 | one character's points: no contract of its own; `Glyphs.TextCoversSplit` states they are exactly its glyph's set bits in its 8-pixel cell, and nothing for a code outside the table |
| Glyphs.TextPoints | src/backends/pixels.rs:34-71 | the text's points in write order: no contract of its own; `Glyphs.TextPointsCover` states which points they are |
| Glyphs.TextPointsCover | src/backends/pixels.rs:37-71 | the text writes exactly the points it covers: character `(x' - x) / 8` is in the table and its glyph bit for the point is set |
| Glyphs.TextCoversSplit | src/backends/pixels.rs:37-71 | coverage by a string is coverage by all but its last character or by the last character in its own 8-pixel cell |
| Glyphs.PaintText | src/backends/pixels.rs:32-72 | `draw_text` keeps the frame's length (its pixels are stated by `Glyphs.TextPixels`) |
| Glyphs.TextPixels | src/backends/pixels.rs:32-72 | `draw_text` sets an in-canvas pixel to the colour exactly when the text, started at the clamped position, covers it; other pixels are unchanged |
| Glyphs.UndrawableCharAdvances | src/backends/pixels.rs:41-44 | a character outside the font table draws nothing, yet the cursor advances by 8 |
| Rendering.PaintTriangle | src/backends/pixels.rs:158-162 | `draw_triangle` keeps the frame's length (its pixels are stated by `Rendering.TrianglePixels`) |
| Rendering.Apply | src/backends/pixels.rs:190-201 | one command's effect keeps the frame's length (`Rendering.LastPixelWins`, `Rendering.LastClearWins` and the per-primitive lemmas state the pixels) |
| Rendering.Render | src/backends/pixels.rs:188-202 | the command list's effect keeps the frame's length (`Rendering.RenderAppend` states that it applies the commands in order) |
| Rendering.TrianglePixels | src/backends/pixels.rs:158-162 | `draw_triangle` sets exactly the in-canvas points of its three edges, including all three vertices |
| Rendering.RenderAppend | src/backends/pixels.rs:188-202 | rendering `a + b` is rendering `a` then `b`; the empty list changes nothing |
| Rendering.LastPixelWins | src/backends/pixels.rs:192-195 | a final `Pixel` command leaves its (clamped) in-canvas pixel with its colour whatever came before |
| Rendering.LastClearWins | src/backends/pixels.rs:191 | a final `Clear` leaves the frame cleared whatever came before |
| Recorder.PixelCommand | src/graphics.rs:86-97 | a pixel is recorded exactly when both coordinates are non-negative, and then as `Pixel` at exactly `(x, y)` with the colour |
| Recorder.LineCommand | src/graphics.rs:99-115 | a line is dropped exactly when both ends are left of, or both above, the canvas; otherwise recorded unchanged |
| Recorder.RectCommand | src/graphics.rs:117-143 | a rectangle is cut at `x = 0` and `y = 0` and recorded exactly when something is left; its far edges stay `x + w` and `y + h` |
| Recorder.PixelRecorded | src/graphics.rs:86-97 | recording then rendering a pixel sets exactly `(x, y)`, and nothing for a negative coordinate |
| Recorder.LineRejectInvisible | src/graphics.rs:99-115 | recording then rendering a line gives the frame the full line would give: the dropped lines are invisible |
| Recorder.RectRecordedCoverage | src/graphics.rs:117-143 | recording then rendering a rectangle sets exactly the in-canvas pixels of `[x, x + w) x [y, y + h)` for any signed position and size |
| Recorder.Graphics.constructor | src/graphics.rs:54-62 | a new recorder is empty and keeps the logical and physical sizes |
| Recorder.Graphics.BeginFrame | src/graphics.rs:65-67 | the command list becomes empty |
| Recorder.Graphics.Commands | src/graphics.rs:69-71 | returns the recorded list, in call order |
| Recorder.Graphics.LogicalSize | src/graphics.rs:73-75 | returns the logical size given at creation |
| Recorder.Graphics.WindowSize | src/graphics.rs:77-79 | returns the physical size given at creation |
| Recorder.Graphics.Clear | src/graphics.rs:82-84 | appends `Clear(color)` |
| Recorder.Graphics.Pixel | src/graphics.rs:86-97 | appends `PixelCommand(x, y, color)` when there is one, else leaves the list unchanged |
| Recorder.Graphics.Line | src/graphics.rs:99-115 | appends `LineCommand(...)` when there is one, else leaves the list unchanged |
| Recorder.Graphics.Rect | src/graphics.rs:117-143 | appends `RectCommand(...)` when there is one, else leaves the list unchanged |
| Recorder.Graphics.Triangle | src/graphics.rs:145-156 | appends the triangle unconditionally |
| Recorder.Graphics.Text | src/graphics.rs:158-165 | appends the text unconditionally |
| Backend.PixelsBackend.constructor | src/backends/pixels.rs:12-31 | the backend keeps the logical size and owns a zeroed frame of `w * h * 4` bytes |
| Backend.PixelsBackend.WriteColor | src/backends/pixels.rs:171 | writes the colour's four bytes at the offset and nothing else |
| Backend.PixelsBackend.SetPixel | src/backends/pixels.rs:164-172 | the frame becomes `Plot` of the old frame: unchanged outside the canvas, else that pixel's bytes replaced |
| Backend.PixelsBackend.Clear | src/backends/pixels.rs:174-180 | every 4-byte chunk of the frame holds the colour |
| Backend.PixelsBackend.DrawRect | src/backends/pixels.rs:74-104 | the frame becomes `FillRect` of the old frame (see `Rects.RectPixels`) |
| Backend.PixelsBackend.DrawLine | src/backends/pixels.rs:105-126 | the frame becomes the old frame painted with `LinePoints(p1, p2)` (see `Lines.LinePixels`) |
| Backend.PixelsBackend.DrawCircle | src/backends/pixels.rs:127-157 | the frame becomes the old frame painted with `CirclePoints` (see `Circles.CirclePixels`) |
| Backend.PixelsBackend.DrawTriangle | src/backends/pixels.rs:158-162 | the frame becomes `PaintTriangle` of the old frame (see `Rendering.TrianglePixels`) |
| Backend.PixelsBackend.DrawGlyphRow | src/backends/pixels.rs:53-66 | the frame becomes the old frame painted with the row's set bits |
| Backend.PixelsBackend.DrawGlyph | src/backends/pixels.rs:49-67 | the frame becomes the old frame painted with the glyph's points |
| Backend.PixelsBackend.DrawText | src/backends/pixels.rs:32-72 | the frame becomes `PaintText` of the old frame (see `Glyphs.TextPixels`) |
| Backend.PixelsBackend.Execute | src/backends/pixels.rs:190-201 | one command's effect on the frame is `Rendering.Apply` |
| Backend.PixelsBackend.Render | src/backends/pixels.rs:188-202 | the frame becomes `Rendering.Render` of the old frame: the commands applied in list order |

## Left out

- Presenting the frame and the window surface are not modelled. This covers
  `pixels.render()`, `resize_window`, and creating the `Pixels` surface in
  `PixelsBackend::new`. They call into the `pixels` crate; the frame is a plain
  byte array owned by the backend.
- src/text.rs, holding the `FONT8X8_BASIC` table, is not part of this model. The font is
  a constructor parameter of 128 glyphs of eight row bytes each.
- The runtime loop, the frame scheduler, input handling, `Context` and the
  extension modules (src/runtime.rs, src/input.rs, src/context.rs,
  src/lib.rs, src/extensions) are not part of this model. They drive the core but
  are event-loop and windowing code.
- `Color::rgba` is not modelled, because it converts a floating-point alpha. The
  `(f32, f32)` conversion into `Vec2` is left out for the same reason: it floors floats.
- `draw_text` and `render` are modelled with their loop bodies split into
  methods (`DrawGlyphRow`, `DrawGlyph`, `Execute`). The writes and their
  order are those of the source's nested loops and `match`.
- Vectors.SubUndoesAdd: coordinates are unbounded integers, so `i32` overflow
  of `+` and `-` (a panic in debug builds) is not modelled.
- Backend.PixelsBackend.DrawLine: `dx`, `dy`, `err` and `2 * err` are unbounded.
  `i32` overflow for end points far apart is not modelled.
- Backend.PixelsBackend.DrawCircle: `center ± x` and `2 * y + 1` are unbounded.
  `i32` overflow for huge radii or centres is not modelled.
- Backend.PixelsBackend.DrawText: `cursor_x + 8` and `cursor_x + col` are
  unbounded. The cursor starts at most at `i32::MAX`, so the `u32` overflow of
  `cursor_x` happens only after about 2^28 characters; that is not modelled.
- Backend.PixelsBackend.SetPixel: the index `(y * w + x) * 4` is computed
  without `u32` wrap-around. `Valid()` bounds each size by `u32::MAX` but not their product.
- Backend.PixelsBackend.DrawRect: `row * w + start_x` is computed without
  `u32` wrap-around, as for `SetPixel`.
- Recorder.RectCommand: `w + x` and `h + y` are unbounded. `i32` overflow for
  `w` near `i32::MIN` is not modelled.
