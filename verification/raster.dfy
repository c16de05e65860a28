/** Rasters: two-dimensional pixel grids indexed `[x, y]`, whose bounds start
    at (0, 0) and end at (Length0, Length1).  Reading outside the bounds yields
    the zero colour and writing outside them does nothing, as for the image
    type the editor uses. */
module Raster {
  import opened Colors

  datatype Point = Point(x: int, y: int)

  predicate InBounds(a: array2<Rgba>, x: int, y: int)
  {
    0 <= x < a.Length0 && 0 <= y < a.Length1
  }

  /** The pixel at (x, y), or the zero colour outside the bounds. */
  function PixelAt(a: array2<Rgba>, x: int, y: int): Rgba
    reads a
  {
    if InBounds(a, x, y) then a[x, y] else Transparent
  }

  /** Writes one pixel; a point outside the bounds leaves the raster as it is. */
  method SetPixel(a: array2<Rgba>, x: int, y: int, c: Rgba)
    modifies a
    ensures forall i, j :: InBounds(a, i, j) ==>
      a[i, j] == (if i == x && j == y then c else old(a[i, j]))
    ensures PixelAt(a, x, y) == if InBounds(a, x, y) then c else Transparent
  {
    if InBounds(a, x, y) {
      a[x, y] := c;
    }
  }

  /** A decoded image whose bounds may start anywhere: `min` is its minimum
      corner and `rows[y][x]` the pixel at (min.x + x, min.y + y). */
  datatype Image = Image(min: Point, width: nat, height: nat, rows: seq<seq<Rgba>>)
  {
    predicate Valid()
    {
      |rows| == height && forall y :: 0 <= y < height ==> |rows[y]| == width
    }

    /** The pixel at (x, y) in the image's own coordinates, or the zero colour
        outside its bounds. */
    function At(x: int, y: int): Rgba
      requires Valid()
    {
      if min.x <= x < min.x + width && min.y <= y < min.y + height
      then rows[y - min.y][x - min.x]
      else Transparent
    }
  }

  /** Copies a decoded image into a fresh raster of the same width and height
      whose origin is (0, 0). */
  method Normalize(img: Image) returns (a: array2<Rgba>)
    requires img.Valid()
    ensures fresh(a)
    ensures a.Length0 == img.width && a.Length1 == img.height
    ensures forall x, y :: InBounds(a, x, y) ==> a[x, y] == img.At(img.min.x + x, img.min.y + y)
  {
    a := new Rgba[img.width, img.height]((x, y) requires 0 <= x < img.width && 0 <= y < img.height =>
      img.rows[y][x]);
  }
}
