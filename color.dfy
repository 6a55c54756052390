/** The RGBA colour type and its named constants (src/color.rs). */
module Colors {

  /** Four 8-bit channels; a write with a colour overwrites a pixel verbatim. */
  datatype Color = Color(r: bv8, g: bv8, b: bv8, a: bv8)

  /** `Color::rgb`: an opaque colour. */
  function Rgb(r: bv8, g: bv8, b: bv8): (c: Color)
    ensures c.r == r && c.g == g && c.b == b
    ensures c.a == 255
  {
    Color(r, g, b, 255)
  }

  const BLACK: Color := Rgb(0, 0, 0)
  const WHITE: Color := Rgb(255, 255, 255)
  const RED: Color := Rgb(255, 0, 0)
  const GREEN: Color := Rgb(0, 255, 0)
  const BLUE: Color := Rgb(0, 0, 255)
  const YELLOW: Color := Rgb(255, 255, 0)
  const CYAN: Color := Rgb(0, 255, 255)
  const MAGENTA: Color := Rgb(255, 0, 255)

  /** The bytes a pixel holds for colour `c`, in frame order R, G, B, A. */
  function Bytes(c: Color): (s: seq<bv8>)
    ensures |s| == 4
    ensures s[0] == c.r && s[1] == c.g && s[2] == c.b && s[3] == c.a
  {
    [c.r, c.g, c.b, c.a]
  }

  /** How many of the three colour channels are fully on. */
  function FullChannels(c: Color): (n: nat)
    ensures n <= 3
  {
    (if c.r == 255 then 1 else 0) + (if c.g == 255 then 1 else 0) + (if c.b == 255 then 1 else 0)
  }

  /** Every colour channel is either fully on or fully off. */
  predicate Saturated(c: Color)
  {
    (c.r == 0 || c.r == 255) && (c.g == 0 || c.g == 255) && (c.b == 0 || c.b == 255)
  }

  /** What the named constants are: black and white, three primaries, three secondaries, all opaque. */
  lemma NamedColors()
    ensures BLACK == Color(0, 0, 0, 255) && WHITE == Color(255, 255, 255, 255)
    ensures RED == Color(255, 0, 0, 255) && GREEN == Color(0, 255, 0, 255) && BLUE == Color(0, 0, 255, 255)
    ensures YELLOW == Color(255, 255, 0, 255) && CYAN == Color(0, 255, 255, 255) && MAGENTA == Color(255, 0, 255, 255)
    ensures forall c :: c in {BLACK, WHITE, RED, GREEN, BLUE, YELLOW, CYAN, MAGENTA} ==> c.a == 255 && Saturated(c)
    ensures FullChannels(RED) == 1 && FullChannels(GREEN) == 1 && FullChannels(BLUE) == 1
    ensures FullChannels(YELLOW) == 2 && FullChannels(CYAN) == 2 && FullChannels(MAGENTA) == 2
    ensures |{RED, GREEN, BLUE, YELLOW, CYAN, MAGENTA}| == 6
  {
  }
}
