# Pico:ed display driver, modelled in Dafny

The Pico:ed board has a 17 x 7 LED matrix driven by an IS31FL3731 chip. The
chip has 144 LEDs per frame and several frames, one of them on view at a time.
The CircuitPython driver `picoed/display.py` puts text, column bitmaps and
pixel lists on that matrix. This project models the driver's core and proves
what it does:

- **Glyphs** (`glyphs.dfy`): the `_BITMAP` font of 95 five-column entries for
  printable ASCII. Every column byte is typed below 0x80, so the verifier checks
  each literal of the table for the "seven rows only" fact.
- **Addressing** (`addressing.dfy`): `Display.pixel_addr`, the fold of the
  17 x 7 grid onto LED indices 0..143. Its inverse `Coords` gives injectivity
  and the exact set of LEDs used.
- **ImageText** (`image.dfy`): `Image(value)`, the parser of the
  `"00000000000000000:..."` notation. It is an imperative method proved against
  two things: the decoded triple list, and a step-by-step account of which check
  raises first. It comes with an encoder and both round trips.
- **Rendering** (`rendering.dfy`): the frame a column buffer draws (`_draw`),
  and the frame a list of triples draws (the last branch of `show`). It includes
  the intermediate frames of the drawing loops and the intensity scaling
  `int(i * 255 / 9)`.
- **Scrolling** (`scrolling.dfy`): brightness clamping, padding, the glyph
  column strip, and the 17-column sliding window that `scroll` draws.
- **PicoDisplay** (`display.dfy`): `class Display` with the driver's
  `_current_frame`, over an abstract chip.
  - The chip has two 144-entry frame arrays, the frame `fill`/`pixel` write to,
    and the frame on view.
  - A ghost `history` keeps every frame put on view, as it was at that moment.
  - `Draw`, `Scroll` and `Show` are imperative methods over this state. The
    in-place 17-byte scroll buffer is an `array<bv8>`.

Behaviour that follows the code:

- `scroll("")` pads the empty text to three spaces, so it draws one blank frame
  rather than nothing.
- `_draw` with a buffer shorter than 17 bytes raises IndexError after lighting
  the columns it had, and `Draw` returns `false`. If the frame on view was the
  current frame before the call, the lit columns are in the hidden frame and
  nothing new is on view. But `_current_frame` stays flipped, so the frame on
  view is no longer the current frame. The next draw then flips back onto the
  frame on view and writes into it while it is visible (see "## Findings").
- `show` starts with `clear()`, which blanks the current frame. That is
  normally the frame on view, so the display goes dark before the text or
  bytes are drawn into the other frame. The triple path writes its pixels into
  that same visible frame and never calls `frame(..., show=True)`.
- `scroll` and `show` take a brightness of 30 when none is given
  (`DEFAULT_BRIGHTNESS`).
- `Image("")` is a string, so it gets no fallback: its first separator read is
  out of range (IndexError).

## Model

| member | source | states |
|---|---|---|
| Glyphs.Glyph | RaspberryPi/PicoEd/Default/lib/picoed/display.py:19-115 | the six columns drawn for a printable character: five table columns, then a blank spacing column; every column is below 0x80 |
| Glyphs.GlyphIsTableEntry | RaspberryPi/PicoEd/Default/lib/picoed/display.py:211-213 | the table has 95 entries, and the glyph of c is entry ord(c) - 32 followed by a 0 column |
| Glyphs.LookupIsIndex | RaspberryPi/PicoEd/Default/lib/picoed/display.py:211 | walking the table n steps finds the same entry as indexing it at n |
| Glyphs.SpaceIsBlank | RaspberryPi/PicoEd/Default/lib/picoed/display.py:20 | the space glyph lights nothing, so padding spaces draw blank columns |
| Addressing.PixelAddr | RaspberryPi/PicoEd/Default/lib/picoed/display.py:169-176 | pixel_addr itself, total over all integers as in the driver; on the grid its result lies in 1..142 |
| Addressing.Coords | RaspberryPi/PicoEd/Default/lib/picoed/display.py:169-176 | the LED index to grid position inverse of pixel_addr; any position it returns is on the 17 x 7 grid |
| Addressing.PixelAddrRange | RaspberryPi/PicoEd/Default/lib/picoed/display.py:171-176 | on the grid, pixel_addr lies in 1..142, inside the 144 LEDs; the left half (x <= 8) uses bank x and rows 1..7, the right half uses bank 17 - x and rows 8..14 |
| Addressing.CoordsOfPixelAddr | RaspberryPi/PicoEd/Default/lib/picoed/display.py:169-176 | Coords undoes pixel_addr on every grid position |
| Addressing.PixelAddrOfCoords | RaspberryPi/PicoEd/Default/lib/picoed/display.py:169-176 | pixel_addr undoes Coords on every LED that Coords maps to a position |
| Addressing.PixelAddrInjective | RaspberryPi/PicoEd/Default/lib/picoed/display.py:169-176 | two grid positions with the same LED index are the same position |
| Addressing.CoordsComplete | RaspberryPi/PicoEd/Default/lib/picoed/display.py:169-176 | an LED index has a grid position exactly when some grid position maps to it |
| Addressing.FoldSamples | RaspberryPi/PicoEd/Default/lib/picoed/display.py:171-176 | pixel_addr(8, 3) = 132 and pixel_addr(9, 3) = 139, either side of the fold |
| ImageText.StepIndex | RaspberryPi/PicoEd/Default/lib/picoed/display.py:148-153 | the 125 checks in the order the loops make them: each reads a position below 125, which is the separator ending row j / 18 for a separator step and otherwise the data digit of one pixel |
| ImageText.StepFault | RaspberryPi/PicoEd/Default/lib/picoed/display.py:148-153 | a check raises IndexError exactly when its index is past the end of the text; ValueError only on a present separator that is not ':' or a present data character that is not a digit; it passes only on ':' or a digit |
| ImageText.Decoded | RaspberryPi/PicoEd/Default/lib/picoed/display.py:152-153 | an accepted text gives 119 triples; triple k is pixel (k % 17, k / 17) with an intensity in 0..9 |
| ImageText.ParseImage | RaspberryPi/PicoEd/Default/lib/picoed/display.py:145-156 | a non-string (None included) gives [[0, 0, 0]]; a string is accepted exactly when every check passes, and then the result is the decoded triple list of a well-formed text; otherwise the fault raised is the one of the first failing check |
| ImageText.PassingStepsWellFormed | RaspberryPi/PicoEd/Default/lib/picoed/display.py:148-153 | passing all 125 checks in order is the same as having ':' after rows 0..5 and a digit at each of the 119 data positions |
| ImageText.RaisesFirstUnique | RaspberryPi/PicoEd/Default/lib/picoed/display.py:148-153 | a text raises at most one kind of fault |
| ImageText.MissingSeparatorRaisesValueError | RaspberryPi/PicoEd/Default/lib/picoed/display.py:149-151 | a separator position that exists and does not hold ':' makes the parse fail with ValueError |
| ImageText.EmptyTextRaisesIndexError | RaspberryPi/PicoEd/Default/lib/picoed/display.py:145-151 | the empty string is parsed, not given the fallback, and fails with IndexError only |
| ImageText.DecodeEncode | RaspberryPi/PicoEd/Default/lib/picoed/display.py:147-154 | the text of any 119 digits is accepted, and parses back to those digits at their row-major positions |
| ImageText.EncodeDecode | RaspberryPi/PicoEd/Default/lib/picoed/display.py:147-154 | re-encoding the intensities of an accepted text gives back the 125 characters the parser read |
| Rendering.Blank | RaspberryPi/PicoEd/Default/lib/picoed/display.py:181 | the frame fill(0) leaves: 144 zeros |
| Rendering.Lit | RaspberryPi/PicoEd/Default/lib/picoed/display.py:185 | `1 << y & col` is non-zero exactly when bit y of the column byte is 1 |
| Rendering.Rendered | RaspberryPi/PicoEd/Default/lib/picoed/display.py:178-188 | the frame a complete _draw leaves, over the 144 LEDs; its contents are stated by RenderedAt and RenderedOffGrid |
| Rendering.RenderedAt | RaspberryPi/PicoEd/Default/lib/picoed/display.py:181-187 | after a draw, the LED of grid pixel (x, y) holds the brightness exactly when bit y of buffer[x] is set, and 0 otherwise |
| Rendering.RenderedOffGrid | RaspberryPi/PicoEd/Default/lib/picoed/display.py:180-186 | LEDs that belong to no grid pixel stay dark after a draw |
| Rendering.Shown | RaspberryPi/PicoEd/Default/lib/picoed/display.py:220-222 | the frames a series of draws puts on view: frame k is the rendering of buffer k |
| Rendering.ShownSnoc | RaspberryPi/PicoEd/Default/lib/picoed/display.py:220-222 | one more draw adds its frame at the end of the frames on view |
| Rendering.PartialStart | RaspberryPi/PicoEd/Default/lib/picoed/display.py:181 | before the loops the frame being drawn is blank |
| Rendering.PartialStep | RaspberryPi/PicoEd/Default/lib/picoed/display.py:183-187 | one inner-loop step sets the brightness at pixel_addr(x, y) when bit y of the column is set and changes nothing else |
| Rendering.PartialComplete | RaspberryPi/PicoEd/Default/lib/picoed/display.py:181-186 | once all 17 columns, or every column a short buffer has, are done, the frame is the full rendering |
| Rendering.LitIgnoresBit7 | RaspberryPi/PicoEd/Default/lib/picoed/display.py:183-185 | rows 0..6 read the same bit of a column byte with or without bit 7 |
| Rendering.RenderedIgnoresBit7AndTail | RaspberryPi/PicoEd/Default/lib/picoed/display.py:181-186 | a draw reads only bits 0..6 of the first 17 buffer bytes |
| Rendering.RectangleCornersAre7Bit | RaspberryPi/PicoEd/Default/lib/picoed/display.py:120 | RECTANGLE's 0xFF corner columns draw the same frame as 0x7F |
| Rendering.ScaleDigits | RaspberryPi/PicoEd/Default/lib/picoed/display.py:233 | int(i * 255 / 9) maps intensities 0..9 monotonically into 0..255, 0 to 0 and 9 to 255 |
| Rendering.ScaleTruncatesTowardZero | RaspberryPi/PicoEd/Default/lib/picoed/display.py:233 | a negative intensity is truncated toward zero (-1 gives -28), unlike floor division (-29) |
| Rendering.Scale | RaspberryPi/PicoEd/Default/lib/picoed/display.py:233 | int(i * 255 / 9): for i >= 0 the largest r with 9r <= 255i, and for i < 0 the negation of that for -i (truncation toward zero) |
| Rendering.Plot | RaspberryPi/PicoEd/Default/lib/picoed/display.py:232-233 | the frame after writing the triples in order: 144 LEDs, and every LED that no triple addresses keeps its old value |
| Rendering.ImageFrameStep | RaspberryPi/PicoEd/Default/lib/picoed/display.py:232-233 | writing pixel n of a parsed image changes exactly that pixel's LED, to its scaled digit |
| Rendering.PlotImagePrefix | RaspberryPi/PicoEd/Default/lib/picoed/display.py:232-233 | after the first n triples of a parsed image, every written pixel holds its scaled digit and the rest is dark |
| Rendering.PlotImage | RaspberryPi/PicoEd/Default/lib/picoed/display.py:232-233 | showing a parsed image lights each grid pixel at its own scaled digit and leaves LEDs off the grid dark |
| Rendering.PlotFallbackIsBlank | RaspberryPi/PicoEd/Default/lib/picoed/display.py:155-156 | showing the fallback image [[0, 0, 0]] leaves the frame blank |
| Scrolling.Clamp | RaspberryPi/PicoEd/Default/lib/picoed/display.py:194-197 | the brightness ends up in 0..255: unchanged inside, 0 below, 255 above |
| Scrolling.Padded | RaspberryPi/PicoEd/Default/lib/picoed/display.py:202-207 | 1 or 2 characters become 3, 3 stay 3, any other length n (0 included) becomes n + 3; the text is a prefix and the added characters are spaces |
| Scrolling.Strip | RaspberryPi/PicoEd/Default/lib/picoed/display.py:216-221 | the columns the scrolling loop reads, six per character; their contents are stated by StripAt |
| Scrolling.StripAt | RaspberryPi/PicoEd/Default/lib/picoed/display.py:219-221 | strip column k is column k % 6 of the glyph of character k / 6 |
| Scrolling.StripColumn | RaspberryPi/PicoEd/Default/lib/picoed/display.py:219-221 | the byte the scrolling loop writes at step k is strip column k |
| Scrolling.StaticColumns | RaspberryPi/PicoEd/Default/lib/picoed/display.py:209-213 | the 17-byte buffer of the static path, byte i being column i % 6 of the glyph of character i / 6; it is the strip's first 17 columns (StaticIsStripPrefix) |
| Scrolling.StaticIsStripPrefix | RaspberryPi/PicoEd/Default/lib/picoed/display.py:209-213 | the static buffer is the first 17 columns of the three characters' strip |
| Scrolling.Window | RaspberryPi/PicoEd/Default/lib/picoed/display.py:199-221 | the 17-byte scroll buffer after n strip columns have been pushed in; its start and step are stated by WindowStart and WindowStep |
| Scrolling.WindowStart | RaspberryPi/PicoEd/Default/lib/picoed/display.py:199 | before any column arrives the window is the zeroed bytearray(17) |
| Scrolling.WindowStep | RaspberryPi/PicoEd/Default/lib/picoed/display.py:216-221 | one step shifts the window left by one and puts the next strip column last |
| Scrolling.ScrollWindows | RaspberryPi/PicoEd/Default/lib/picoed/display.py:215-222 | the scrolling path draws m * 6 buffers for a padded text of length m; buffer t is the window after t + 1 columns |
| Scrolling.ScrollFrames | RaspberryPi/PicoEd/Default/lib/picoed/display.py:193-222 | scroll draws at least one buffer, each 17 columns wide |
| Scrolling.ScrollFrameCount | RaspberryPi/PicoEd/Default/lib/picoed/display.py:202-222 | texts of at most 3 characters take one draw; a text of n > 3 characters takes (n + 3) * 6 |
| Scrolling.ShortTextIsPadded | RaspberryPi/PicoEd/Default/lib/picoed/display.py:202-207 | a text of 1 to 3 characters draws exactly what its padded three-character form draws |
| Scrolling.SinglePaddedSample | RaspberryPi/PicoEd/Default/lib/picoed/display.py:202-203 | scroll("A") and scroll("A  ") draw the same buffer |
| Scrolling.EmptyTextDrawsBlankOnce | RaspberryPi/PicoEd/Default/lib/picoed/display.py:206-214 | the empty text takes one draw, of an all-zero buffer |
| Scrolling.ScrollFrameAt | RaspberryPi/PicoEd/Default/lib/picoed/display.py:215-222 | in the scrolling case, column j of draw t is strip column t - 16 + j (a glyph column of the padded text), or 0 when that index is negative |
| Scrolling.ScrollEndsBlank | RaspberryPi/PicoEd/Default/lib/picoed/display.py:206-207 | a scrolled text ends on a blank buffer, made of its three padding spaces |
| Scrolling.ScrollFramesAre7Bit | RaspberryPi/PicoEd/Default/lib/picoed/display.py:209-222 | every buffer scroll draws has bit 7 clear in every column |
| PicoDisplay.ShiftIn | RaspberryPi/PicoEd/Default/lib/picoed/display.py:216-221 | the in-place shift: the buffer becomes its old bytes 1..16 followed by the new column |
| PicoDisplay.StaticBuffer | RaspberryPi/PicoEd/Default/lib/picoed/display.py:209-212 | the filled buffer is the static buffer of the three characters |
| PicoDisplay.Display.constructor | RaspberryPi/PicoEd/Default/lib/picoed/display.py:160-166 | a new display has both frames dark, frame 0 written and on view, and _current_frame 0 |
| PicoDisplay.Display.SelectFrame | RaspberryPi/PicoEd/Default/lib/picoed/display.py:180 | the chip's frame(f, show), called without show here and with show at line 188: f becomes the write frame; with show it is also put on view, and its contents are recorded; no LED changes |
| PicoDisplay.Display.Fill | RaspberryPi/PicoEd/Default/lib/picoed/display.py:181 | the chip's fill(v): every LED of the write frame becomes v, and the other frame is unchanged |
| PicoDisplay.Display.Pixel | RaspberryPi/PicoEd/Default/lib/picoed/display.py:187 | the chip's pixel(x, y, c): only the LED pixel_addr(x, y) of the write frame changes, to c |
| PicoDisplay.Display.Clear | RaspberryPi/PicoEd/Default/lib/picoed/display.py:190-191 | the write frame becomes blank and the other frame is unchanged |
| PicoDisplay.Display.Draw | RaspberryPi/PicoEd/Default/lib/picoed/display.py:178-188 | _current_frame flips; the new frame holds exactly the buffer's rendering; the old frame is unchanged, so when the frame on view was the current frame it is not written; with 17 or more bytes the new frame goes on view and is recorded, and with fewer the draw fails and no frame is newly put on view; the frame on view is left untouched only when it was the current frame |
| PicoDisplay.Display.DrawRestoring | RaspberryPi/PicoEd/Default/lib/picoed/display.py:178-188 | _draw with the failure path corrected: on a short buffer the current and write frames go back to where they were, so a frame on view that is the current frame stays so after every draw, and no later draw writes into it |
| PicoDisplay.DrawAfterFailedDraw | RaspberryPi/PicoEd/Default/lib/picoed/display.py:178-188 | as written: on a fresh display, _draw(b'', 5) then _draw(b'\x01', 5) leaves pixel (0, 0) lit at 5 in the frame on view, which was never recorded as shown |
| PicoDisplay.RestoredDrawAfterFailedDraw | RaspberryPi/PicoEd/Default/lib/picoed/display.py:178-188 | the same two draws with the corrected failure path leave the frame on view blank and nothing recorded |
| PicoDisplay.Display.Scroll | RaspberryPi/PicoEd/Default/lib/picoed/display.py:193-222 | scroll puts on view exactly the frames of the buffers of ScrollFrames, in order, at the clamped brightness; the frame flips once per draw, and the frame left on view is the last buffer's; on the static path (at most 3 characters) the previous current frame is unchanged |
| PicoDisplay.Display.DrawStatic | RaspberryPi/PicoEd/Default/lib/picoed/display.py:209-214 | the static path: one draw, of the static buffer, which goes on view and is recorded; the frame flips and the previous current frame is unchanged |
| PicoDisplay.Display.ScrollColumns | RaspberryPi/PicoEd/Default/lib/picoed/display.py:215-222 | the scrolling path: m * 6 draws, the k-th of the window after k columns, flipping the frame each time |
| PicoDisplay.Display.ScrollStep | RaspberryPi/PicoEd/Default/lib/picoed/display.py:216-222 | one scrolling step: the buffer shifts the new column in, its rendering goes on view in the flipped frame and is recorded, and the previous current frame is unchanged |
| PicoDisplay.Display.Show | RaspberryPi/PicoEd/Default/lib/picoed/display.py:224-233 | clear first, then: text scrolls at the clamped brightness (a static text leaves the cleared frame blank); bytes are drawn at the unclamped brightness (the cleared frame stays blank, and a short buffer fails); triples are written in order at int(i * 255 / 9) into the cleared current frame, which stays the frame on view when it was, so the image is visible although no frame(..., show=True) records it; the brightness defaults to 30 |
| PicoDisplay.Display.PlotPixels | RaspberryPi/PicoEd/Default/lib/picoed/display.py:232-233 | the triple loop: the write frame becomes the triples plotted in order over its old contents, and the other frame is unchanged |

## Findings

| source | as written | input that shows it | evidently intended | confidence | as-written member | corrected member |
|---|---|---|---|---|---|---|
| RaspberryPi/PicoEd/Default/lib/picoed/display.py:178-188 | `_current_frame` is flipped before the drawing loop and is not restored when `buffer[x]` raises IndexError, so after a failed draw the frame on view is no longer the current frame | on a fresh display, `_draw(b'', 5)` then `_draw(b'\x01', 5)`: the second draw blanks frame 0 while it is on view and lights pixel (0, 0) there | a draw only writes the frame that is not on view | medium, not executed | PicoDisplay.DrawAfterFailedDraw | PicoDisplay.Display.DrawRestoring |

`Show` and `Scroll` call the driver's `_draw` as written (`Draw`), since that is what the driver does. `DrawRestoring` states the corrected failure path, and `RestoredDrawAfterFailedDraw` replays the same two draws with it.

## Left out

- `RaspberryPi/PicoEd/Default/lib/ringbit.py` (servo, ultrasonic sensor, ADC ladder and NeoPixels) is hardware glue and is not part of this model.
- The IS31FL3731 base class (`adafruit_is31fl3731`) is not part of this model. Its I2C register traffic is not modelled. Only the effects the driver relies on are: `frame(f, show)`, `fill(v)` and `pixel(x, y, c)` on two 144-LED frames. The chip's other six frames, which the driver never uses, are left out.
- PicoDisplay.Display.Pixel: requires an on-grid position. The chip's own range checks (ignoring off-grid pixels, rejecting colours outside 0..255) are not modelled. So `Show` on triples requires on-grid triples, and brightness values are stored unchecked.
- PicoDisplay.Display.Show: numbers reach `show` and `scroll` already turned into text. Python's `str()` of ints and floats is not modelled.
- PicoDisplay.Display.Scroll: the text must be printable ASCII (32..126). Other characters index the table with Python's negative-index wrap-around (control characters) or raise IndexError (127 and above). Neither is modelled.
- ImageText.ParseImage: a data character counts as a digit only if it is `'0'..'9'`. Python's `int()` also accepts other Unicode decimal digits; those are treated here as a ValueError.
- Rendering.Scale: models `int(i * 255 / 9)` as exact division truncated toward zero. Floating-point rounding, which differs only for very large intensities, is left out.
- The `Image` preset constants other than RECTANGLE are left out: they are data, not logic.
- The time each draw takes and the I2C latency are left out, so the model says which frames are put on view and in what order, not for how long.
- PicoDisplay.Display.history: it records a snapshot of a frame when `frame(f, show=True)` puts it on view. Writes made later to the frame that is still on view are not recorded. These are the `clear()` at the start of `show`, the triple path of `show`, and a draw made after a failed draw.
