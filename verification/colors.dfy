/** Pixel colours of the editor: 8-bit RGBA values, the luminance threshold
    that picks the cursor's border colour, and the reduction of a colour
    reported with 16-bit channels (as the colour picker reports it) to 8 bits. */
module Colors {

  newtype byte = x: int | 0 <= x < 0x100
  newtype uint16 = x: int | 0 <= x < 0x1_0000
  newtype uint32 = x: int | 0 <= x < 0x1_0000_0000

  /** One pixel: red, green, blue and alpha, 8 bits each. */
  datatype Rgba = Rgba(r: byte, g: byte, b: byte, a: byte)

  /** The zero colour: what a freshly allocated raster holds, and what
      reading outside a raster's bounds yields. */
  const Transparent := Rgba(0, 0, 0, 0)
  const OpaqueWhite := Rgba(255, 255, 255, 255)
  const OpaqueBlack := Rgba(0, 0, 0, 255)

  /** The plain sum of the three colour channels, without any wrap-around. */
  function Brightness(c: Rgba): int
  {
    c.r as int + c.g as int + c.b as int
  }

  /** The channel sum as the editor computes it, in 16-bit arithmetic: it
      never wraps, because three bytes add up to at most 765. */
  function ChannelSum16(c: Rgba): (s: uint16)
    ensures s as int == Brightness(c)
    ensures s <= 765
  {
    ((c.r as int + c.g as int + c.b as int) % 0x1_0000) as uint16
  }

  /** The border colour of the cursor drawn over a canvas pixel `c`. */
  function BorderFor(c: Rgba): (border: Rgba)
    ensures border.a == 255
    ensures border == OpaqueWhite <==> Brightness(c) < 384
    ensures border == OpaqueBlack <==> Brightness(c) >= 384
  {
    if ChannelSum16(c) < 384 then OpaqueWhite else OpaqueBlack
  }

  /** The border stays visible: its brightness differs from that of the pixel
      under the cursor by more than half of the full range (765). */
  lemma BorderContrasts(c: Rgba)
    ensures Brightness(BorderFor(c)) - Brightness(c) > 381
         || Brightness(c) - Brightness(BorderFor(c)) >= 384
  {
  }

  /** The two sides of the threshold: a brightness of 383 still gets a white
      border, 384 already a black one.  Opaque red (brightness 255) keeps the
      white border. */
  lemma ThresholdBoundary()
    ensures BorderFor(Rgba(255, 128, 0, 255)) == OpaqueWhite
    ensures BorderFor(Rgba(255, 129, 0, 255)) == OpaqueBlack
    ensures BorderFor(Rgba(255, 0, 0, 255)) == OpaqueWhite
  {
  }

  /** A colour as a generic colour value reports it: each channel in a 32-bit
      word whose meaningful range is 0..0xffff. */
  datatype Rgba64 = Rgba64(r: uint32, g: uint32, b: uint32, a: uint32)

  /** Whether every channel lies in the 16-bit range the colour interface
      promises. */
  predicate Within16(c: Rgba64)
  {
    c.r <= 0xffff && c.g <= 0xffff && c.b <= 0xffff && c.a <= 0xffff
  }

  /** Shifts a channel right by 8 bits and truncates it to a byte. */
  function Narrow(v: uint32): (n: byte)
    ensures v <= 0xffff ==> n as int * 0x100 <= v as int < n as int * 0x100 + 0x100
  {
    ((v as int / 0x100) % 0x100) as byte
  }

  /** The colour the picker's confirmation stores as the selected colour:
      the high byte of every 16-bit channel. */
  function PickedColor(c: Rgba64): (p: Rgba)
    ensures Within16(c) ==> p.r as int == c.r as int / 0x100 && p.g as int == c.g as int / 0x100
    ensures Within16(c) ==> p.b as int == c.b as int / 0x100 && p.a as int == c.a as int / 0x100
  {
    Rgba(Narrow(c.r), Narrow(c.g), Narrow(c.b), Narrow(c.a))
  }

  /** An 8-bit channel widened to 16 bits by repeating the byte (`x | x << 8`);
      the two bytes do not overlap, so this is `x * 0x101`. */
  function Widen8(x: byte): (v: uint32)
    ensures v <= 0xffff
  {
    (x as int * 0x101) as uint32
  }

  /** An 8-bit colour as a generic colour value reports it. */
  function Widen(c: Rgba): (w: Rgba64)
    ensures Within16(w)
  {
    Rgba64(Widen8(c.r), Widen8(c.g), Widen8(c.b), Widen8(c.a))
  }

  /** Picking a colour that came from an 8-bit colour gives that colour back:
      the reduction loses only the low byte that widening added. */
  lemma PickRoundTrip(c: Rgba)
    ensures PickedColor(Widen(c)) == c
  {
  }
}
