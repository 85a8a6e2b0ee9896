/**
 * What the driver puts into a chip frame: a column buffer drawn at one
 * brightness (Display._draw), and a list of pixel triples drawn at scaled
 * intensities (the last branch of Display.show). Frames are 144 brightness
 * values indexed by the chip's LED index.
 */
module Rendering {
  import opened Wrappers
  import opened Addressing
  import opened ImageText

  /** An all-off frame, what fill(0) leaves. */
  function Blank(): (f: seq<int>)
    ensures |f| == LEDS && forall i :: 0 <= i < LEDS ==> f[i] == 0
  {
    seq(LEDS, _ => 0)
  }

  /** Bit y of a column byte: whether row y of that column is lit. */
  predicate Lit(col: bv8, y: nat)
    requires y < 8
    ensures Lit(col, y) <==> (col >> y) & 1 == 1
  {
    (1 as bv8 << y) & col != 0
  }

  /** The brightness column x, row y gets from a buffer: columns past its end stay dark. */
  function Shade(buf: seq<bv8>, b: int, x: int, y: int): int
    requires 0 <= y < HEIGHT
  {
    if 0 <= x < |buf| && Lit(buf[x], y) then b else 0
  }

  /** The frame that a full draw of buf at brightness b produces. */
  function Rendered(buf: seq<bv8>, b: int): (f: seq<int>)
    ensures |f| == LEDS
  {
    seq(LEDS, i requires 0 <= i < LEDS =>
      match Coords(i)
      case None => 0
      case Some((x, y)) => Shade(buf, b, x, y))
  }

  /** The frames a sequence of full draws displays, one per buffer. */
  function Shown(bufs: seq<seq<bv8>>, b: int): (frames: seq<seq<int>>)
    ensures |frames| == |bufs| && forall k :: 0 <= k < |bufs| ==> frames[k] == Rendered(bufs[k], b)
  {
    seq(|bufs|, k requires 0 <= k < |bufs| => Rendered(bufs[k], b))
  }

  /** One more draw adds its frame to the end. */
  lemma ShownSnoc(bufs: seq<seq<bv8>>, n: int, b: int)
    requires 0 <= n < |bufs|
    ensures Shown(bufs[..n + 1], b) == Shown(bufs[..n], b) + [Rendered(bufs[n], b)]
  {
  }

  /** The frame part-way through a draw: the first k grid pixels in column-major order are done. */
  function Partial(buf: seq<bv8>, b: int, k: int): (f: seq<int>)
    ensures |f| == LEDS
  {
    seq(LEDS, i requires 0 <= i < LEDS =>
      match Coords(i)
      case None => 0
      case Some((x, y)) => if x * 7 + y < k then Shade(buf, b, x, y) else 0)
  }

  /** fill(0) leaves the frame blank before the drawing loops start. */
  lemma PartialStart(buf: seq<bv8>, b: int)
    ensures Partial(buf, b, 0) == Blank()
  {
  }

  /** Column-major position x * 7 + y names exactly one pixel of the 7-high grid. */
  lemma ColumnMajorUnique(u: int, v: int, x: int, y: int)
    requires 0 <= v < 7 && 0 <= y < 7
    ensures u * 7 + v == x * 7 + y ==> u == x && v == y
  {
  }

  /** Handling pixel (x, y) of the draw sets its LED to b if its bit is set and leaves every other LED alone. */
  lemma PartialStep(buf: seq<bv8>, b: int, x: int, y: int)
    requires InGrid(x, y) && x < |buf|
    ensures Partial(buf, b, x * 7 + y + 1) ==
      if Lit(buf[x], y) then Partial(buf, b, x * 7 + y)[PixelAddr(x, y) := b]
      else Partial(buf, b, x * 7 + y)
  {
    var k := x * 7 + y;
    var a := PixelAddr(x, y);
    CoordsOfPixelAddr(x, y);
    PixelAddrRange(x, y);
    var before, after := Partial(buf, b, k), Partial(buf, b, k + 1);
    forall i | 0 <= i < LEDS
      ensures after[i] == if Lit(buf[x], y) then before[a := b][i] else before[i]
    {
      if Coords(i).Some? && i != a {
        var (u, v) := Coords(i).value;
        PixelAddrOfCoords(i);
        ColumnMajorUnique(u, v, x, y);
      }
    }
  }

  /** Once every column the buffer has is handled, the frame is the full rendering. */
  lemma PartialComplete(buf: seq<bv8>, b: int, k: int)
    requires k >= 7 * |buf| || k >= 7 * WIDTH
    ensures Partial(buf, b, k) == Rendered(buf, b)
  {
    forall i | 0 <= i < LEDS ensures Partial(buf, b, k)[i] == Rendered(buf, b)[i] {
      if Coords(i).Some? {
        var (x, y) := Coords(i).value;
        if x < |buf| {
          assert x * 7 + y < 7 * |buf|;
        }
      }
    }
  }

  /** After a draw, the LED of pixel (x, y) holds b exactly when bit y of buf[x] is set. */
  lemma RenderedAt(buf: seq<bv8>, b: int, x: int, y: int)
    requires InGrid(x, y)
    ensures Rendered(buf, b)[PixelAddr(x, y)] == if x < |buf| && Lit(buf[x], y) then b else 0
  {
    PixelAddrRange(x, y);
    CoordsOfPixelAddr(x, y);
  }

  /** LEDs that belong to no grid pixel stay dark. */
  lemma RenderedOffGrid(buf: seq<bv8>, b: int, i: int)
    requires 0 <= i < LEDS
    requires forall x, y :: InGrid(x, y) ==> PixelAddr(x, y) != i
    ensures Rendered(buf, b)[i] == 0
  {
    CoordsComplete(i);
  }

  /** Bit 7 of a column byte is not a row of the display. */
  lemma LitIgnoresBit7(col: bv8, y: nat)
    requires y < HEIGHT
    ensures Lit(col & 0x7F, y) == Lit(col, y)
  {
    assert (1 as bv8 << y) & 0x80 == 0 by {
      if y == 0 {} else if y == 1 {} else if y == 2 {} else if y == 3 {} else if y == 4 {} else if y == 5 {} else {}
    }
  }

  /** A draw reads only bits 0..6 of the first 17 bytes of its buffer. */
  lemma RenderedIgnoresBit7AndTail(buf: seq<bv8>, b: int)
    requires |buf| >= WIDTH
    ensures Rendered(buf, b) == Rendered(seq(WIDTH, j requires 0 <= j < WIDTH => buf[j] & 0x7F), b)
  {
    var masked := seq(WIDTH, j requires 0 <= j < WIDTH => buf[j] & 0x7F);
    forall i | 0 <= i < LEDS ensures Rendered(buf, b)[i] == Rendered(masked, b)[i] {
      if Coords(i).Some? {
        var (x, y) := Coords(i).value;
        LitIgnoresBit7(buf[x], y);
      }
    }
  }

  /** The RECTANGLE preset of the driver, whose corner columns are 0xFF. */
  const RECTANGLE: seq<bv8> := [
    0xFF, 0x41, 0x41, 0x41, 0x41, 0x41, 0x41, 0x41, 0x41,
    0x41, 0x41, 0x41, 0x41, 0x41, 0x41, 0x41, 0xFF]

  /** RECTANGLE draws the same frame as the 7-row outline with 0x7F corners. */
  lemma RectangleCornersAre7Bit(b: int)
    ensures Rendered(RECTANGLE, b) == Rendered(RECTANGLE[0 := 0x7F][16 := 0x7F], b)
  {
    RenderedIgnoresBit7AndTail(RECTANGLE, b);
    RenderedIgnoresBit7AndTail(RECTANGLE[0 := 0x7F][16 := 0x7F], b);
    var m1 := seq(WIDTH, j requires 0 <= j < WIDTH => RECTANGLE[j] & 0x7F);
    var m2 := seq(WIDTH, j requires 0 <= j < WIDTH => RECTANGLE[0 := 0x7F][16 := 0x7F][j] & 0x7F);
    assert m1 == m2;
  }

  /**
   * int(i * 255 / 9): the true quotient truncated toward zero, as Python's
   * int() does with the float it is given.
   */
  function Scale(i: int): (r: int)
    ensures i >= 0 ==> 9 * r <= 255 * i < 9 * r + 9
    ensures i < 0 ==> 9 * (-r) <= 255 * (-i) < 9 * (-r) + 9
  {
    if i >= 0 then i * 255 / 9 else -((-i) * 255 / 9)
  }

  /** Intensities 0..9 cover brightness 0..255, from dark to full, without going backwards. */
  lemma ScaleDigits(i: int, j: int)
    requires 0 <= i <= j <= 9
    ensures 0 <= Scale(i) <= Scale(j) <= 255
    ensures Scale(0) == 0 && Scale(9) == 255
  {
  }

  /** For a negative intensity the driver truncates toward zero, not down. */
  lemma ScaleTruncatesTowardZero()
    ensures Scale(-1) == -28 && (-1) * 255 / 9 == -29
  {
  }

  /** Every triple names a grid pixel. */
  ghost predicate OnGrid(ts: seq<Triple>) {
    forall k :: 0 <= k < |ts| ==> InGrid(ts[k].x, ts[k].y)
  }

  /** No triple of ts is written to LED i. */
  ghost predicate Untouched(ts: seq<Triple>, i: int) {
    forall k :: 0 <= k < |ts| ==> PixelAddr(ts[k].x, ts[k].y) != i
  }

  /** The frame after writing the triples one by one, in order, each at its scaled intensity. */
  function Plot(f: seq<int>, ts: seq<Triple>): (r: seq<int>)
    requires |f| == LEDS && OnGrid(ts)
    ensures |r| == LEDS
    ensures forall i :: 0 <= i < LEDS && Untouched(ts, i) ==> r[i] == f[i]
    decreases |ts|
  {
    if ts == [] then f
    else
      var t := ts[|ts| - 1];
      PixelAddrRange(t.x, t.y);
      Plot(f, ts[..|ts| - 1])[PixelAddr(t.x, t.y) := Scale(t.intensity)]
  }

  /** The frame of a parsed image once its first n pixels are written. */
  function ImageFrame(s: string, n: int): (f: seq<int>)
    requires WellFormed(s)
    ensures |f| == LEDS
  {
    seq(LEDS, i requires 0 <= i < LEDS =>
      match Coords(i)
      case None => 0
      case Some((x, y)) => if y * 17 + x < n then Scale(DigitValue(s[DataIndex(x, y)])) else 0)
  }

  /** Row-major position n names exactly one column and row of the 17-wide grid. */
  lemma RowMajorUnique(u: int, v: int, n: int)
    requires 0 <= u < 17 && 0 <= v
    ensures v * 17 + u == n ==> u == n % 17 && v == n / 17
  {
  }

  /** Writing pixel n of the image (the (n+1)-th triple) changes exactly that pixel's LED. */
  lemma ImageFrameStep(s: string, n: int)
    requires WellFormed(s) && 0 <= n < PIXELS
    ensures PixelAddr(n % 17, n / 17) < LEDS
    ensures ImageFrame(s, n + 1) ==
      ImageFrame(s, n)[PixelAddr(n % 17, n / 17) := Scale(DigitValue(s[DataIndex(n % 17, n / 17)]))]
  {
    var x, y := n % 17, n / 17;
    var a := PixelAddr(x, y);
    CoordsOfPixelAddr(x, y);
    PixelAddrRange(x, y);
    forall i | 0 <= i < LEDS && i != a ensures ImageFrame(s, n + 1)[i] == ImageFrame(s, n)[i] {
      if Coords(i).Some? {
        var (u, v) := Coords(i).value;
        PixelAddrOfCoords(i);
        RowMajorUnique(u, v, n);
      }
    }
  }

  lemma {:induction false} PlotImagePrefix(s: string, n: nat)
    requires WellFormed(s) && n <= PIXELS
    ensures OnGrid(Decoded(s)[..n])
    ensures Plot(Blank(), Decoded(s)[..n]) == ImageFrame(s, n)
  {
    if n == 0 {
      assert Decoded(s)[..n] == [];
    } else {
      PlotImagePrefix(s, n - 1);
      var ts := Decoded(s)[..n];
      assert ts[..n - 1] == Decoded(s)[..n - 1];
      assert ts[n - 1] == Triple((n - 1) % 17, (n - 1) / 17, DigitValue(s[DataIndex((n - 1) % 17, (n - 1) / 17)]));
      ImageFrameStep(s, n - 1);
    }
  }

  /**
   * Showing a parsed image lights every pixel at its own digit's scaled
   * intensity, whatever the order of the writes, and nothing else.
   */
  lemma PlotImage(s: string)
    requires WellFormed(s)
    ensures OnGrid(Decoded(s))
    ensures forall x, y :: InGrid(x, y) ==>
      PixelAddr(x, y) < LEDS && Plot(Blank(), Decoded(s))[PixelAddr(x, y)] == Scale(DigitValue(s[DataIndex(x, y)]))
    ensures forall i :: 0 <= i < LEDS && Coords(i).None? ==> Plot(Blank(), Decoded(s))[i] == 0
  {
    PlotImagePrefix(s, PIXELS);
    assert Decoded(s)[..PIXELS] == Decoded(s);
    forall x, y | InGrid(x, y)
      ensures PixelAddr(x, y) < LEDS && Plot(Blank(), Decoded(s))[PixelAddr(x, y)] == Scale(DigitValue(s[DataIndex(x, y)]))
    {
      PixelAddrRange(x, y);
      CoordsOfPixelAddr(x, y);
    }
  }

  /** The fallback image [[0, 0, 0]] writes brightness 0 at pixel (0, 0): the frame stays blank. */
  lemma PlotFallbackIsBlank()
    ensures OnGrid([Triple(0, 0, 0)]) && Plot(Blank(), [Triple(0, 0, 0)]) == Blank()
  {
    assert [Triple(0, 0, 0)][..0] == [];
  }
}
