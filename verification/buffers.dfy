/** An image buffer: the canvas being edited, an overlay three times its size
    on each axis that carries the cursor's decoration, the cursor position, and
    a reference to the selected colour that all buffers share. */
module Buffers {
  import opened Colors
  import opened Raster
  import opened Cursor

  /** A mutable colour that several buffers refer to. */
  class ColorCell {
    var value: Rgba

    constructor (c: Rgba)
      ensures value == c
    {
      value := c;
    }
  }

  class ImageBuffer {
    const canvas: array2<Rgba>
    const overlay: array2<Rgba>
    const cursorColor: ColorCell
    var cursor: Point

    /** The overlay covers the canvas at three times its size, and the cursor
        is in range. */
    ghost predicate Valid()
      reads this
    {
      && canvas != overlay
      && overlay.Length0 == 3 * canvas.Length0
      && overlay.Length1 == 3 * canvas.Length1
      && InRange(cursor, canvas.Length0, canvas.Length1)
    }

    /** The border colour for the canvas pixel under the cursor. */
    function CursorBorder(): Rgba
      reads this, canvas
    {
      BorderFor(PixelAt(canvas, cursor.x, cursor.y))
    }

    /** The overlay is transparent everywhere except, possibly, at the current
        cursor's two decoration pixels. */
    ghost predicate Clean()
      reads this, overlay
    {
      forall i, j :: InBounds(overlay, i, j) && !IsDecorationPixel(cursor, i, j) ==> overlay[i, j] == Transparent
    }

    /** The overlay shows exactly the cursor's decoration for the current
        canvas pixel, cursor position and selected colour. */
    ghost predicate ShowsCursor()
      reads this, canvas, overlay, cursorColor
    {
      forall i, j :: InBounds(overlay, i, j) ==>
        overlay[i, j] == Decoration(cursor, CursorBorder(), cursorColor.value, i, j)
    }

    /** Wraps a canvas whose origin is (0, 0): a fresh, fully transparent
        overlay three times as wide and as high, and the cursor at the
        canvas's minimum corner. */
    constructor (im: array2<Rgba>, color: ColorCell)
      ensures canvas == im && cursorColor == color
      ensures cursor == Point(0, 0)
      ensures fresh(overlay)
      ensures overlay.Length0 == 3 * im.Length0 && overlay.Length1 == 3 * im.Length1
      ensures forall i, j :: InBounds(overlay, i, j) ==> overlay[i, j] == Transparent
      ensures Valid() && Clean()
    {
      canvas := im;
      overlay := new Rgba[3 * im.Length0, 3 * im.Length1]((i, j) => Transparent);
      cursorColor := color;
      cursor := Point(0, 0);
    }

    /** Draws the cursor: the border pixel in white or black, depending on the
        brightness of the canvas pixel under the cursor, and the fill pixel in
        the selected colour.  No other overlay pixel changes. */
    method DrawCursor()
      requires Valid()
      modifies overlay
      ensures forall i, j :: InBounds(overlay, i, j) ==>
        overlay[i, j] == (if IsDecorationPixel(cursor, i, j) then Decoration(cursor, CursorBorder(), cursorColor.value, i, j)
                          else old(overlay[i, j]))
      ensures old(Clean()) ==> ShowsCursor() && Clean()
    {
      var c := PixelAt(canvas, cursor.x, cursor.y);
      var border := BorderFor(c);
      PutDecoration(overlay, cursor, border, cursorColor.value);
    }

    /** Clears the old cursor's two decoration pixels, moves the cursor to
        (x, y) and draws it there. */
    method MoveCursor(x: int, y: int)
      requires Valid()
      requires InRange(Point(x, y), canvas.Length0, canvas.Length1)
      modifies this, overlay
      ensures cursor == Point(x, y)
      ensures Valid()
      ensures forall i, j :: InBounds(overlay, i, j) ==>
        overlay[i, j] == (if IsDecorationPixel(cursor, i, j) then Decoration(cursor, CursorBorder(), cursorColor.value, i, j)
                          else if IsDecorationPixel(old(cursor), i, j) then Transparent
                          else old(overlay[i, j]))
      ensures old(Clean()) ==> ShowsCursor() && Clean()
    {
      SetPixel(overlay, 3 * cursor.x, 3 * cursor.y, Transparent);
      SetPixel(overlay, 3 * cursor.x + 1, 3 * cursor.y + 1, Transparent);
      cursor := Point(x, y);
      DrawCursor();
    }
  }

  /** Whether overlay pixel (i, j) is the border pixel of a cursor at p. */
  predicate IsBorderPixel(p: Point, i: int, j: int)
  {
    i == 3 * p.x && j == 3 * p.y
  }

  /** Whether overlay pixel (i, j) is the fill pixel of a cursor at p. */
  predicate IsFillPixel(p: Point, i: int, j: int)
  {
    i == 3 * p.x + 1 && j == 3 * p.y + 1
  }

  predicate IsDecorationPixel(p: Point, i: int, j: int)
  {
    IsBorderPixel(p, i, j) || IsFillPixel(p, i, j)
  }

  /** What overlay pixel (i, j) shows when a cursor at p is drawn with the
      given border and fill colours: only the two decoration pixels differ
      from transparent. */
  function Decoration(p: Point, border: Rgba, fill: Rgba, i: int, j: int): Rgba
  {
    if IsBorderPixel(p, i, j) then border
    else if IsFillPixel(p, i, j) then fill
    else Transparent
  }

  /** Writes the two decoration pixels of a cursor at p into an overlay. */
  method PutDecoration(overlay: array2<Rgba>, p: Point, border: Rgba, fill: Rgba)
    modifies overlay
    ensures forall i, j :: InBounds(overlay, i, j) ==>
      overlay[i, j] == if IsDecorationPixel(p, i, j) then Decoration(p, border, fill, i, j) else old(overlay[i, j])
  {
    SetPixel(overlay, 3 * p.x, 3 * p.y, border);
    SetPixel(overlay, 3 * p.x + 1, 3 * p.y + 1, fill);
  }

  /** Two buffers share no raster. */
  predicate Separate(b: ImageBuffer, c: ImageBuffer)
  {
    && b.canvas != c.canvas && b.canvas != c.overlay
    && b.overlay != c.canvas && b.overlay != c.overlay
  }
}
