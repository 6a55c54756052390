/**
 * The closed set of drawing commands a frame is made of, in the shape the
 * rasterizer matches on (src/backends/pixels.rs): points are `Vec2` values
 * and there is a `Circle` variant.
 */
module Commands {
  import opened Vectors
  import opened Colors

  datatype DrawCommand =
    | Clear(color: Color)
    | Pixel(pos: Vec2, color: Color)
    | Line(start: Vec2, end: Vec2, color: Color)
    | Rect(pos: Vec2, size: Vec2, color: Color)
    | Circle(center: Vec2, radius: int, color: Color)
    | Triangle(p1: Vec2, p2: Vec2, p3: Vec2, color: Color)
    | Text(pos: Vec2, text: string, color: Color)
}
