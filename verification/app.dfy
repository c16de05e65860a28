/** The application state: the selected colour shared by every window, the
    registry of open image buffers, and what each key does to them. */
module App {
  import opened Colors
  import opened Raster
  import opened Cursor
  import opened Buffers

  /** The keys the editor reacts to; any other key is ignored. */
  datatype Key = Arrow(dir: Direction) | KeyY | KeySpace | KeyC | KeyO | KeyS | KeyN | OtherKey
  {
    /** Keys that at most open a dialog and change no state themselves. */
    predicate OpensDialogOrNothing()
    {
      KeyC? || KeyO? || KeyS? || OtherKey?
    }
  }

  /** The size of the blank canvas the N key creates. */
  const NewCanvasSize := 50

  class AppState {
    /** The selected colour; every buffer's cursor colour refers to it. */
    const selected: ColorCell
    /** The buffers whose windows are open. */
    var buffers: set<ImageBuffer>

    ghost function Canvases(): set<array2<Rgba>>
      reads this
    {
      set b | b in buffers :: b.canvas
    }

    ghost function Overlays(): set<array2<Rgba>>
      reads this
    {
      set b | b in buffers :: b.overlay
    }

    /** Every open buffer is valid, its overlay is clean, it draws with the
        selected colour, and no two open buffers share a raster. */
    ghost predicate WellFormed()
      reads this, buffers, Overlays()
    {
      && (forall b :: b in buffers ==> b.Valid() && b.Clean() && b.cursorColor == selected)
      && (forall b, c :: b in buffers && c in buffers && b != c ==> Separate(b, c))
    }

    /** Between events, moreover, every open buffer's overlay shows its cursor
        exactly. */
    ghost predicate Valid()
      reads this, selected, buffers, Canvases(), Overlays()
    {
      WellFormed() && forall b :: b in buffers ==> b.ShowsCursor()
    }

    /** The state at start-up: opaque black selected and no window open. */
    constructor ()
      ensures fresh(selected)
      ensures selected.value == OpaqueBlack && buffers == {}
      ensures Valid()
    {
      selected := new ColorCell(OpaqueBlack);
      buffers := {};
    }

    /** Redraws the cursor of every open buffer, so that each shows the
        current selected colour; canvases and cursor positions stay as they
        are. */
    method RedrawCursors()
      requires WellFormed()
      modifies Overlays()
      ensures Valid()
      ensures forall b :: b in buffers ==> b.cursor == old(b.cursor) && unchanged(b.canvas)
    {
      var todo := buffers;
      while todo != {}
        invariant todo <= buffers
        invariant WellFormed()
        invariant forall b :: b in buffers && b !in todo ==> b.ShowsCursor()
        invariant forall b :: b in buffers ==> unchanged(b.canvas)
        decreases todo
      {
        var b :| b in todo;
        label Before:
        b.DrawCursor();
        forall d | d in buffers && d != b
          ensures d.Valid() && d.Clean() && (old@Before(d.ShowsCursor()) ==> d.ShowsCursor())
          ensures unchanged(d.canvas)
        {
          assert Separate(d, b);
        }
        todo := todo - {b};
      }
    }

    /** Registers the buffer of a window being opened and draws its cursor. */
    method OpenWindow(buf: ImageBuffer)
      requires Valid()
      requires buf.Valid() && buf.Clean() && buf.cursorColor == selected
      requires forall b :: b in buffers && b != buf ==> Separate(b, buf)
      modifies this, buf.overlay
      ensures buffers == old(buffers) + {buf}
      ensures buf.ShowsCursor()
      ensures Valid()
    {
      buffers := buffers + {buf};
      buf.DrawCursor();
      forall d | d in buffers && d != buf
        ensures d.Valid() && d.Clean() && d.ShowsCursor()
      {
        assert Separate(d, buf);
      }
    }

    /** Deregisters exactly the buffer of the window being closed. */
    method CloseWindow(buf: ImageBuffer)
      requires Valid()
      modifies this
      ensures buffers == old(buffers) - {buf}
      ensures Valid()
    {
      buffers := buffers - {buf};
    }

    /** Moves the cursor of an open buffer to (x, y) inside its range; the
        other buffers are left as they are. */
    method MoveBufferCursor(buf: ImageBuffer, x: int, y: int)
      requires Valid() && buf in buffers
      requires InRange(Point(x, y), buf.canvas.Length0, buf.canvas.Length1)
      modifies buf, buf.overlay
      ensures buf.cursor == Point(x, y)
      ensures Valid()
    {
      label Before:
      buf.MoveCursor(x, y);
      forall b | b in buffers && b != buf
        ensures b.Valid() && b.Clean() && b.ShowsCursor()
      {
        assert Separate(b, buf);
        assert old@Before(b.ShowsCursor());
      }
    }

    /** An arrow key: moves the cursor one pixel when the coordinate it
        changes stays inside the canvas. */
    method ArrowKey(buf: ImageBuffer, d: Direction)
      requires Valid() && buf in buffers
      modifies buf, buf.overlay
      ensures buf.cursor == Step(d, old(buf.cursor), buf.canvas.Length0, buf.canvas.Length1)
      ensures Valid()
    {
      match d
      case Up =>
        if buf.cursor.y > 0 {
          MoveBufferCursor(buf, buf.cursor.x, buf.cursor.y - 1);
        }
      case Down =>
        if buf.cursor.y + 1 < buf.canvas.Length1 {
          MoveBufferCursor(buf, buf.cursor.x, buf.cursor.y + 1);
        }
      case Left =>
        if buf.cursor.x > 0 {
          MoveBufferCursor(buf, buf.cursor.x - 1, buf.cursor.y);
        }
      case Right =>
        if buf.cursor.x + 1 < buf.canvas.Length0 {
          MoveBufferCursor(buf, buf.cursor.x + 1, buf.cursor.y);
        }
    }

    /** The Y key: selects the colour under the buffer's cursor and redraws
        every open buffer's cursor. */
    method SampleColor(buf: ImageBuffer)
      requires Valid() && buf in buffers
      modifies selected, Overlays()
      ensures selected.value == old(PixelAt(buf.canvas, buf.cursor.x, buf.cursor.y))
      ensures forall b :: b in buffers ==> b.cursor == old(b.cursor) && unchanged(b.canvas)
      ensures Valid()
    {
      selected.value := PixelAt(buf.canvas, buf.cursor.x, buf.cursor.y);
      RedrawCursors();
    }

    /** The Space key: paints the canvas pixel under the cursor with the
        selected colour and redraws the cursor.  Painting a pixel that already
        has the selected colour changes nothing, so a second press is a no-op. */
    method Paint(buf: ImageBuffer)
      requires Valid() && buf in buffers
      modifies buf.canvas, buf.overlay
      ensures forall x, y :: InBounds(buf.canvas, x, y) ==>
        buf.canvas[x, y] == (if Point(x, y) == buf.cursor then selected.value else old(buf.canvas[x, y]))
      ensures old(PixelAt(buf.canvas, buf.cursor.x, buf.cursor.y)) == selected.value ==>
        forall x, y :: InBounds(buf.canvas, x, y) ==> buf.canvas[x, y] == old(buf.canvas[x, y])
      ensures Valid()
    {
      label Before:
      SetPixel(buf.canvas, buf.cursor.x, buf.cursor.y, selected.value);
      buf.DrawCursor();
      forall b | b in buffers && b != buf
        ensures b.Valid() && b.Clean() && b.ShowsCursor()
      {
        assert Separate(b, buf);
        assert old@Before(b.ShowsCursor());
      }
    }

    /** The colour picker opened by the C key, once a colour is confirmed:
        selects the chosen colour reduced to 8-bit channels and redraws every
        open buffer's cursor. */
    method PickColor(c: Rgba64)
      requires Valid()
      modifies selected, Overlays()
      ensures selected.value == PickedColor(c)
      ensures forall b :: b in buffers ==> b.cursor == old(b.cursor) && unchanged(b.canvas)
      ensures Valid()
    {
      selected.value := PickedColor(c);
      RedrawCursors();
    }

    /** The N key: opens a window on a fresh blank 50 x 50 canvas. */
    method NewCanvas() returns (nb: ImageBuffer)
      requires Valid()
      modifies this
      ensures fresh(nb) && fresh(nb.canvas) && fresh(nb.overlay)
      ensures buffers == old(buffers) + {nb}
      ensures nb.canvas.Length0 == NewCanvasSize && nb.canvas.Length1 == NewCanvasSize
      ensures forall x, y :: InBounds(nb.canvas, x, y) ==> nb.canvas[x, y] == Transparent
      ensures nb.cursor == Point(0, 0)
      ensures Valid()
    {
      var im := new Rgba[NewCanvasSize, NewCanvasSize]((x, y) => Transparent);
      nb := new ImageBuffer(im, selected);
      OpenWindow(nb);
    }

    /** Opens a window on a decoded image, copied into a canvas whose origin
        is (0, 0). */
    method LoadImage(img: Image) returns (nb: ImageBuffer)
      requires Valid() && img.Valid()
      modifies this
      ensures fresh(nb) && fresh(nb.canvas) && fresh(nb.overlay)
      ensures buffers == old(buffers) + {nb}
      ensures nb.canvas.Length0 == img.width && nb.canvas.Length1 == img.height
      ensures forall x, y :: InBounds(nb.canvas, x, y) ==> nb.canvas[x, y] == img.At(img.min.x + x, img.min.y + y)
      ensures nb.cursor == Point(0, 0)
      ensures Valid()
    {
      var converted := Normalize(img);
      nb := new ImageBuffer(converted, selected);
      OpenWindow(nb);
    }

    /** Dispatches one key typed into the window of `buf`. */
    method HandleKey(buf: ImageBuffer, key: Key)
      requires Valid() && buf in buffers
      modifies this, selected, buf, buf.canvas, Overlays()
      ensures buf in buffers && old(buffers) <= buffers
      ensures key.Arrow? ==> buf.cursor == Step(key.dir, old(buf.cursor), buf.canvas.Length0, buf.canvas.Length1)
      ensures key.KeyY? ==> selected.value == old(PixelAt(buf.canvas, buf.cursor.x, buf.cursor.y))
      ensures !key.Arrow? ==> buf.cursor == old(buf.cursor)
      ensures !key.KeySpace? ==> unchanged(buf.canvas)
      ensures !key.KeyY? ==> selected.value == old(selected.value)
      ensures key.KeySpace? ==> forall x, y :: InBounds(buf.canvas, x, y) ==>
        buf.canvas[x, y] == (if Point(x, y) == buf.cursor then selected.value else old(buf.canvas[x, y]))
      ensures key.KeyN? ==> |buffers - old(buffers)| == 1
      ensures !key.KeyN? ==> buffers == old(buffers)
      ensures key.OpensDialogOrNothing() ==> unchanged(selected, buf, buf.canvas)
      ensures key.OpensDialogOrNothing() ==> unchanged(Overlays())
      ensures Valid()
    {
      if key.OpensDialogOrNothing() {
        // C, O and S only open a dialog; the state changes in its callback.
        return;
      }
      match key
      case Arrow(d) => ArrowKey(buf, d);
      case KeyY => SampleColor(buf);
      case KeySpace => Paint(buf);
      case KeyN =>
        var nb := NewCanvas();
        assert buffers - old(buffers) == {nb};
    }
  }
}
