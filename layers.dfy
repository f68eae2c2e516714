/** The Layer record of js/layer.js: a named off-screen canvas of the editor's
    fixed size, with visibility, blend mode and opacity. */
module Layers {

  /** One entry of a canvas pixel buffer: an unsigned 8-bit channel value. */
  type Byte = x: int | 0 <= x < 256

  /** The editor's canvas size, fixed when the session is created. */
  const Width: nat := 800
  const Height: nat := 600

  /** A canvas holds four bytes per pixel (R, G, B, A), row by row: 800 * 600 * 4
      bytes, a multiple of four. */
  const PixelBytes: nat := 1_920_000

  /** The pixel content of one canvas of the editor's size. */
  type Pixels = s: seq<Byte> | |s| == PixelBytes witness seq(PixelBytes, _ => 0)

  /** A canvas whose every byte is `b`: Filled(0) is the transparent black of a
      fresh or cleared canvas, Filled(255) the opaque white of a white fill. */
  function Filled(b: Byte): (p: Pixels)
    ensures forall k :: 0 <= k < |p| ==> p[k] == b
  {
    seq(PixelBytes, _ => b)
  }

  datatype Layer = Layer(
    name: string,
    visible: bool,
    mode: string,     // the canvas composite operation used to draw this layer
    opacity: real,    // the global alpha used to draw this layer
    pixels: Pixels)

  /** `new Layer(width, height, name)`: a visible, fully opaque, normally blended
      layer of exactly the given name, on a transparent canvas. */
  function NewLayer(name: string): (l: Layer)
    ensures l.name == name
    ensures l.visible
    ensures l.mode == "source-over"
    ensures l.opacity == 1.0
    ensures |l.pixels| == Width * Height * 4
    ensures forall k :: 0 <= k < |l.pixels| ==> l.pixels[k] == 0
  {
    Layer(name, true, "source-over", 1.0, Filled(0))
  }
}
