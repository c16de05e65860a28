# pixelart: a Dafny model of the editor's interaction core

pixelart is a small pixel-art editor. Each open window shows one **image
buffer**. A buffer holds:

- the canvas being edited;
- an overlay three times the canvas size on each axis, which carries the
  cursor's decoration;
- the cursor position;
- a reference to the **selected colour**, which every window shares.

The **application state** holds the selected colour and the registry of open
buffers. The keys do the following:

- The arrow keys move the cursor inside the canvas.
- Y picks up the colour under the cursor.
- Space paints the pixel under the cursor.
- C opens a colour picker. Confirming a colour selects it, reduced to 8-bit
  channels.
- N opens a window on a blank 50 x 50 canvas.
- O opens a PNG, JPEG or GIF image; S saves the canvas as PNG.

Changing the selected colour redraws the cursor of every open buffer.

The project models this core in the source's own imperative form:

- `colors.dfy` (module `Colors`): 8-bit RGBA pixels. It holds the border-colour
  threshold, which compares the channel sum with 384 and takes that sum in
  16 bits. It also holds the picker's reduction of 16-bit channels to 8 bits.
- `raster.dfy` (module `Raster`): canvases and overlays as `array2<Rgba>`
  indexed `[x, y]`, with origin (0, 0). Reading outside the bounds yields the
  zero colour and writing outside them does nothing, as the Go image type
  does. This module also copies a decoded image with any origin into a fresh
  raster with origin (0, 0).
- `cursor.dfy` (module `Cursor`): the arrow-key guard as a pure function
  `Step`, its inverse, and what any sequence of arrow keys does (`Walk`).
- `buffers.dfy` (module `Buffers`): `ImageBuffer` as a class. Its canvas,
  overlay and colour reference are constant fields and its cursor is a
  mutable field. It has the constructor (`NewImageBuffer`), `DrawCursor` and
  `MoveCursor`. `ColorCell` stands for the `*color.RGBA` pointer that all
  buffers share.
- `app.dfy` (module `App`): `AppState` as a class. It holds the selected colour
  and `buffers: set<ImageBuffer>`, the registry of open windows. It has the
  redraw fan-out, window opening and closing, one method per key, and the key
  dispatcher.

Two invariants are proved across every operation:

- `ImageBuffer.Valid()`: the overlay is exactly 3x the canvas and the cursor
  is in range.
- `AppState.Valid()`: each open buffer's overlay is transparent everywhere
  except the current cursor's two decoration pixels, which show the border
  colour and the selected colour. No two open buffers share a raster.

`AppState.WellFormed()` is the weaker form that holds in the middle of a
colour change. In it, the overlay is transparent except at the two decoration
pixels, but those pixels may be stale.

Three details of the code that are easy to misread:

- The N key allocates a zeroed image, so the new canvas is fully transparent
  and not opaque.
- `MoveCursor` clears exactly the two decoration pixels (3x, 3y) and
  (3x+1, 3y+1), not a 2x2 cell.
- Painting opaque red under the cursor gives a channel sum of 255. That is
  below 384, so the border stays white and does not flip to black
  (`Colors.ThresholdBoundary`).

## Model

| member | source | states |
|---|---|---|
| `Colors.ChannelSum16` | pixelart.go:50 | The 16-bit channel sum equals the true R+G+B sum and is at most 765, so it never wraps |
| `Colors.BorderFor` | pixelart.go:49-54 | The border is opaque; it is white exactly when R+G+B < 384 and black exactly when R+G+B >= 384 |
| `Colors.BorderContrasts` | pixelart.go:49-54 | The border's brightness differs from the pixel under the cursor by more than 381 either way, so it stays visible |
| `Colors.ThresholdBoundary` | pixelart.go:50-53 | Sum 383 gives a white border, sum 384 a black one; opaque red (sum 255) keeps the white border |
| `Colors.Narrow` | pixelart.go:127 | For a 16-bit channel v, the result n is its high byte: n*256 <= v < n*256+256 |
| `Colors.PickedColor` | pixelart.go:126-127 | Each channel of the picked colour is the 16-bit channel divided by 256, so every channel is in 0..255 |
| `Colors.PickRoundTrip` | pixelart.go:126-127 | Reducing an 8-bit colour that was widened to 16 bits (x*0x101) gives back the same colour |
| `Raster.SetPixel` | pixelart.go:55-56 | Writing a pixel changes only that pixel, and changes nothing when the point is outside the bounds |
| `Raster.Normalize` | pixelart.go:162-165 | A fresh raster with the image's width and height and origin (0,0); pixel (x,y) is the image's pixel (min.x+x, min.y+y) |
| `Cursor.Target` | pixelart.go:101-116 | An arrow's target differs from the cursor in exactly one coordinate, by exactly 1 |
| `Cursor.Step` | pixelart.go:101-116 | An arrow key leaves the cursor put or moves it to its neighbour; from a position in range, it moves exactly when the neighbour is in range, so the cursor stays in range |
| `Cursor.InRangeOnCanvas` | pixelart.go:101-116 | On a canvas with pixels, a cursor in range lies on a canvas pixel |
| `Cursor.StepUndo` | pixelart.go:101-116 | A move that happened is undone by the opposite arrow key |
| `Cursor.WalkInRange` | pixelart.go:101-116 | Any sequence of arrow keys keeps the cursor in range |
| `Cursor.WalkDistance` | pixelart.go:101-116 | After n arrow keys, the cursor is at most n pixels (Manhattan distance) from where it started |
| `Buffers.ImageBuffer.constructor` | pixelart.go:60-76 | A fresh overlay of 3*width by 3*height pixels, all transparent, the given canvas and colour reference, and the cursor at the minimum corner (0,0) |
| `Buffers.ImageBuffer.DrawCursor` | pixelart.go:48-58 | Writes overlay pixel (3x,3y) with the threshold border colour and (3x+1,3y+1) with the selected colour; every other overlay pixel is unchanged; a clean overlay ends up showing exactly the cursor |
| `Buffers.ImageBuffer.MoveCursor` | pixelart.go:41-46 | Clears the old cursor's two pixels to transparent, sets the cursor to (x,y) and draws it there; nothing else changes; a clean overlay stays clean and shows exactly the new cursor |
| `App.AppState.constructor` | pixelart.go:196-200 | The start-up state: opaque black selected and no buffer registered |
| `App.AppState.RedrawCursors` | pixelart.go:84-88 | Afterwards every registered buffer shows its cursor in the current selected colour; no cursor position or canvas changes |
| `App.AppState.OpenWindow` | pixelart.go:90-98 | Adds exactly this buffer to the registry and draws its cursor; the invariant is kept |
| `App.AppState.CloseWindow` | pixelart.go:92-95 | Removes exactly this buffer from the registry; the invariant is kept |
| `App.AppState.ArrowKey` | pixelart.go:101-116 | The new cursor is `Step` of the old one, so it moves by one pixel only inside the bounds; every buffer keeps showing its cursor |
| `App.AppState.SampleColor` | pixelart.go:117-119 | The selected colour becomes the canvas pixel under the cursor; every buffer is redrawn, and its cursor and canvas are unchanged |
| `App.AppState.Paint` | pixelart.go:120-123 | Only the canvas pixel under the cursor changes, to the selected colour; if it already had that colour nothing changes, so painting is idempotent |
| `App.AppState.PickColor` | pixelart.go:124-129 | The selected colour becomes the picked colour with its channels reduced to 8 bits; every buffer is redrawn, and its cursor and canvas are unchanged |
| `App.AppState.NewCanvas` | pixelart.go:148-150 | Registers exactly one fresh buffer, with a fresh overlay, on a fresh, fully transparent 50x50 canvas with the cursor at (0,0) |
| `App.AppState.LoadImage` | pixelart.go:156-171 | Registers exactly one fresh buffer, with a fresh canvas and overlay, whose canvas is the normalised copy of the decoded image |
| `App.AppState.HandleKey` | pixelart.go:99-152 | Dispatches each key to its rule. The invariant is kept and the buffer stays open. Only an arrow moves the cursor. Only Space changes the canvas, and only the pixel under the cursor. Only Y changes the selected colour. Only N adds a buffer. C, O, S and other keys change no state |

## Left out

- Windows, widgets, containers, `Widget.Refresh()` and `w.Show()`/`w.Close()` (pixelart.go:57, 63-75, 91-99, 123, 153) are calls into the GUI toolkit. They change no modelled state, so the model leaves them out.
- The file-open and file-save dialogs of the O and S keys (pixelart.go:132-147) are left out. So are `png.Encode` and `image.Decode`. These are codec library calls, so a lossless PNG round trip cannot be stated. `LoadImage` takes an image that is already decoded.
- `Raster.Normalize`: it models `draw.Draw` for a source that is already an RGBA grid. Converting other colour models (paletted GIF, YCbCr JPEG) is library code and is not modelled.
- The colour picker dialog of the C key (pixelart.go:125-131): only its confirmation callback is modelled, as `PickColor`. Cancelling never calls the callback, so pressing C changes no state.
- `openFile` (pixelart.go:173-193): `os.Open`, `panic` on a failed open or decode, and the `go` goroutine are I/O, process abort and concurrency. After decoding, it does the same as `loadReader`, which `LoadImage` models as a sequential registry insert.
- `main` (pixelart.go:195-203): `app.New()`, `app.Run()` and the embedded default image are left out. Only the initial state is modelled, by `AppState`'s constructor.
- `Buffers.ImageBuffer.constructor`: canvases whose bounds do not start at (0,0) are not modelled. Every caller passes a canvas with origin (0,0) (pixelart.go:149, 164, 186), so the cursor's minimum corner is (0,0).
- The registry is keyed by pointer identity in the source (pixelart.go:81). The model uses a set of object references, which has the same membership semantics.
- Go map iteration order in `redrawCursors` is unspecified. The model picks the next buffer arbitrarily, and the final state does not depend on the order.
- `App.AppState.HandleKey`: it does not restate Paint's idempotence or the shape of the new N buffer. Those are the contracts of `Paint` and `NewCanvas`, which it calls.
