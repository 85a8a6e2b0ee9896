/**
 * Display: the Pico:ed driver object. It owns the double-buffering index
 * `_current_frame` and drives an IS31FL3731 chip, of which the model keeps
 * what the driver relies on: two frames of 144 LED brightness values, the
 * frame that fill/pixel write (selected with frame(f, show=False)) and the
 * frame on view (selected with frame(f, show=True)).
 */
module PicoDisplay {
  import opened Glyphs
  import opened Addressing
  import opened ImageText
  import opened Rendering
  import opened Scrolling

  /** The brightness scroll and show use when the caller gives none. */
  const DEFAULT_BRIGHTNESS := 30

  /** What show() accepts, one variant per accepted shape. Numbers arrive already converted to text. */
  datatype Value = Text(s: string) | Bytes(data: seq<bv8>) | Pixels(triples: seq<Triple>)

  /**
   * One step of the scroll's buffer update: every byte moves one place left
   * (the first is dropped) and c is written into the last place.
   */
  method ShiftIn(buf: array<bv8>, c: bv8)
    requires buf.Length == WIDTH
    modifies buf
    ensures buf[..] == old(buf[..])[1..] + [c]
  {
    for i := 0 to WIDTH - 1
      invariant forall k :: 0 <= k < i ==> buf[k] == old(buf[k + 1])
      invariant forall k :: i <= k < WIDTH ==> buf[k] == old(buf[k])
    {
      buf[i] := buf[i + 1];
    }
    buf[WIDTH - 1] := c;
  }

  /** The 17-byte buffer of the static path: byte i is column i % 6 of the glyph of character i / 6. */
  method StaticBuffer(p: string) returns (buf: array<bv8>)
    requires |p| == 3 && PrintableText(p)
    ensures fresh(buf) && buf[..] == StaticColumns(p)
  {
    buf := new bv8[WIDTH](_ => 0);
    for i := 0 to WIDTH
      invariant forall k :: 0 <= k < i ==> buf[k] == StaticColumns(p)[k]
    {
      buf[i] := Glyph(p[i / 6])[i % 6];
    }
  }

  /** The frame index reached from frame c after n flips between frames 0 and 1. */
  function Flipped(c: nat, n: nat): nat
  {
    (c + n) % 2
  }

  /** One more flip moves to the other frame. */
  lemma FlippedStep(c: nat, n: nat)
    requires c < 2
    ensures Flipped(c, n + 1) == 1 - Flipped(c, n)
  {
  }

  /**
   * A draw after a failed draw, as the driver is written: the failed draw of
   * an empty buffer leaves _current_frame on the hidden frame, so the next
   * draw flips back onto the frame on view, blanks it and lights pixel (0, 0)
   * there before failing in turn. The lit pixel is on view but was never
   * recorded as shown.
   */
  method DrawAfterFailedDraw() returns (d: Display)
    ensures d.Valid() && d.shownFrame == 0 && d.currentFrame == 0
    ensures d.Contents(0)[PixelAddr(0, 0)] == 5 && d.history == []
  {
    d := new Display();
    var first := d.Draw([], 5);
    var second := d.Draw([0x01], 5);
    RenderedAt([0x01], 5, 0, 0);
    assert Lit(0x01, 0);
  }

  /** The same two draws with the corrected failure path leave the frame on view untouched. */
  method RestoredDrawAfterFailedDraw() returns (d: Display)
    ensures d.Valid() && d.shownFrame == 0 && d.currentFrame == 0
    ensures d.Contents(0) == Blank() && d.history == []
  {
    d := new Display();
    var first := d.DrawRestoring([], 5);
    var second := d.DrawRestoring([0x01], 5);
  }

  class Display {
    /** The chip's frames 0 and 1: one brightness per LED. */
    const frame0: array<int>
    const frame1: array<int>
    /** The frame the chip's fill and pixel calls write to. */
    var writeFrame: nat
    /** The frame the chip displays. */
    var shownFrame: nat
    /** Display._current_frame. */
    var currentFrame: nat
    /** Every frame the chip was told to display, as it stood at that moment. */
    ghost var history: seq<seq<int>>

    /** The chip's state is well formed. */
    ghost predicate ChipValid()
      reads this
    {
      frame0.Length == LEDS && frame1.Length == LEDS && frame0 != frame1 &&
      writeFrame < 2 && shownFrame < 2
    }

    /** Between calls, the driver's current frame is the one the chip writes to. */
    ghost predicate Valid()
      reads this
    {
      ChipValid() && currentFrame == writeFrame
    }

    /** The array of the frame being written. */
    function Target(): array<int>
      reads this
    {
      if writeFrame == 0 then frame0 else frame1
    }

    /** The contents of chip frame f. */
    ghost function Contents(f: nat): (s: seq<int>)
      reads this, frame0, frame1
      requires ChipValid() && f < 2
      ensures |s| == LEDS
    {
      if f == 0 then frame0[..] else frame1[..]
    }

    /** A freshly initialised display: both frames dark, frame 0 selected and shown. */
    constructor ()
      ensures Valid() && fresh(frame0) && fresh(frame1)
      ensures writeFrame == 0 && shownFrame == 0 && currentFrame == 0
      ensures Contents(0) == Blank() && Contents(1) == Blank() && history == []
    {
      frame0 := new int[LEDS](_ => 0);
      frame1 := new int[LEDS](_ => 0);
      writeFrame, shownFrame, currentFrame := 0, 0, 0;
      history := [];
    }

    /** The chip's frame(f, show): write to frame f from now on; with show, also put f on view. */
    method SelectFrame(f: nat, show: bool)
      requires ChipValid() && f < 2
      modifies this
      ensures ChipValid() && writeFrame == f && currentFrame == old(currentFrame)
      ensures shownFrame == if show then f else old(shownFrame)
      ensures history == if show then old(history) + [Contents(f)] else old(history)
      ensures Contents(0) == old(Contents(0)) && Contents(1) == old(Contents(1))
    {
      writeFrame := f;
      if show {
        shownFrame := f;
        history := history + [Contents(f)];
      }
    }

    /** The chip's fill(v): every LED of the frame being written gets brightness v. */
    method Fill(v: int)
      requires ChipValid()
      modifies Target()
      ensures Contents(writeFrame) == seq(LEDS, _ => v)
      ensures Contents(1 - writeFrame) == old(Contents(1 - writeFrame))
    {
      var a := Target();
      forall i | 0 <= i < LEDS {
        a[i] := v;
      }
    }

    /** The chip's pixel(x, y, color): the LED of grid pixel (x, y) in the frame being written gets color. */
    method Pixel(x: int, y: int, color: int)
      requires ChipValid() && InGrid(x, y)
      modifies Target()
      ensures Contents(writeFrame) == old(Contents(writeFrame))[PixelAddr(x, y) := color]
      ensures Contents(1 - writeFrame) == old(Contents(1 - writeFrame))
    {
      PixelAddrRange(x, y);
      Target()[PixelAddr(x, y)] := color;
    }

    /** Display.clear: darken the frame being written. */
    method Clear()
      requires Valid()
      modifies Target()
      ensures Contents(writeFrame) == Blank()
      ensures Contents(1 - writeFrame) == old(Contents(1 - writeFrame))
    {
      Fill(0);
    }

    /**
     * Display._draw: flip to the other frame, darken it, light the pixels whose
     * bits are set in the 17 column bytes, then put it on view. When the frame
     * on view is the current frame, as it is unless the previous draw failed,
     * the frame on view is not written. A buffer shorter than 17 bytes raises
     * IndexError part-way (ok == false): the new frame then holds the columns
     * drawn so far and is not shown, but _current_frame stays flipped, so the
     * next draw writes into the frame on view (see DrawRestoring).
     */
    method Draw(buffer: seq<bv8>, brightness: int) returns (ok: bool)
      requires Valid()
      modifies this, frame0, frame1
      ensures Valid()
      ensures currentFrame == 1 - old(currentFrame)
      ensures Contents(currentFrame) == Rendered(buffer, brightness)
      ensures Contents(old(currentFrame)) == old(Contents(currentFrame))
      ensures old(shownFrame) == old(currentFrame) ==> Contents(old(shownFrame)) == old(Contents(shownFrame))
      ensures ok <==> |buffer| >= WIDTH
      ensures ok ==> shownFrame == currentFrame && history == old(history) + [Rendered(buffer, brightness)]
      ensures !ok ==> shownFrame == old(shownFrame) && history == old(history)
    {
      currentFrame := if currentFrame != 0 then 0 else 1;
      SelectFrame(currentFrame, false);
      Fill(0);
      PartialStart(buffer, brightness);
      var x := 0;
      while x < WIDTH
        invariant 0 <= x <= WIDTH && x <= |buffer|
        invariant Valid() && currentFrame == 1 - old(currentFrame)
        invariant shownFrame == old(shownFrame) && history == old(history)
        invariant Contents(currentFrame) == Partial(buffer, brightness, x * 7)
        invariant Contents(old(currentFrame)) == old(Contents(currentFrame))
      {
        if x >= |buffer| {
          PartialComplete(buffer, brightness, x * 7);
          return false;
        }
        var col := buffer[x];
        var y := 0;
        while y < HEIGHT
          invariant 0 <= y <= HEIGHT
          invariant Valid() && currentFrame == 1 - old(currentFrame)
          invariant shownFrame == old(shownFrame) && history == old(history)
          invariant Contents(currentFrame) == Partial(buffer, brightness, x * 7 + y)
          invariant Contents(old(currentFrame)) == old(Contents(currentFrame))
        {
          PartialStep(buffer, brightness, x, y);
          if Lit(col, y) {
            Pixel(x, y, brightness);
          }
          y := y + 1;
        }
        x := x + 1;
      }
      PartialComplete(buffer, brightness, 7 * WIDTH);
      SelectFrame(currentFrame, true);
      ok := true;
    }

    /**
     * _draw with the failure path corrected: when the buffer is too short, the
     * driver's current frame and the chip's write frame go back to where they
     * were, so the frame on view stays the current frame and the next draw
     * flips away from it again.
     */
    method DrawRestoring(buffer: seq<bv8>, brightness: int) returns (ok: bool)
      requires Valid()
      modifies this, frame0, frame1
      ensures Valid()
      ensures ok <==> |buffer| >= WIDTH
      ensures old(shownFrame) == old(currentFrame) ==> shownFrame == currentFrame
      ensures Contents(old(currentFrame)) == old(Contents(currentFrame))
      ensures Contents(1 - old(currentFrame)) == Rendered(buffer, brightness)
      ensures ok ==> currentFrame == 1 - old(currentFrame) && shownFrame == currentFrame
      ensures ok ==> history == old(history) + [Rendered(buffer, brightness)]
      ensures !ok ==> currentFrame == old(currentFrame) && shownFrame == old(shownFrame) && history == old(history)
    {
      var previous := currentFrame;
      ok := Draw(buffer, brightness);
      if !ok {
        currentFrame := previous;
        SelectFrame(previous, false);
      }
    }

    /**
     * Display.scroll: clamp the brightness, pad the text, then either draw the
     * three characters once or slide the text's glyph columns through the
     * 17-byte buffer.
     */
    method Scroll(text: string, brightness: int := DEFAULT_BRIGHTNESS)
      requires Valid() && PrintableText(text)
      modifies this, frame0, frame1
      ensures Valid()
      ensures history == old(history) + Shown(ScrollFrames(text), Clamp(brightness))
      ensures shownFrame == currentFrame
      ensures currentFrame == Flipped(old(currentFrame), |ScrollFrames(text)|)
      ensures Contents(currentFrame) == Rendered(LastFrame(text), Clamp(brightness))
      ensures |text| <= 3 ==> Contents(1 - currentFrame) == old(Contents(currentFrame))
    {
      var b := brightness;
      if b < 0 {
        b := 0;
      }
      if b > 255 {
        b := 255;
      }
      var p := Padded(text);
      if |p| == 3 {
        DrawStatic(p, b);
      } else {
        ScrollColumns(p, b);
      }
    }

    /** The static path of scroll: the three characters' first 17 columns, drawn once. */
    method DrawStatic(p: string, b: int)
      requires Valid() && |p| == 3 && PrintableText(p)
      modifies this, frame0, frame1
      ensures Valid()
      ensures history == old(history) + [Rendered(StaticColumns(p), b)]
      ensures currentFrame == 1 - old(currentFrame) && shownFrame == currentFrame
      ensures Contents(currentFrame) == Rendered(StaticColumns(p), b)
      ensures Contents(old(currentFrame)) == old(Contents(currentFrame))
    {
      var buf := StaticBuffer(p);
      var drawn := Draw(buf[..], b);
    }

    /**
     * The scrolling path of scroll: starting from a blank 17-byte buffer, for
     * each column of the padded text's strip, shift the buffer left in place,
     * put the column last, and draw.
     */
    method ScrollColumns(p: string, b: int)
      requires Valid() && |p| > 3 && PrintableText(p)
      modifies this, frame0, frame1
      ensures Valid()
      ensures history == old(history) + Shown(ScrollWindows(p), b)
      ensures currentFrame == Flipped(old(currentFrame), |p| * 6) && shownFrame == currentFrame
      ensures Contents(currentFrame) == Rendered(Window(Strip(p), |p| * 6), b)
    {
      var buf := new bv8[WIDTH](_ => 0);
      ghost var strip := Strip(p);
      ghost var windows := ScrollWindows(p);
      WindowStart(strip);
      for step := 0 to |p| * 6
        invariant buf[..] == Window(strip, step)
        invariant Valid()
        invariant history == old(history) + Shown(windows[..step], b)
        invariant currentFrame == Flipped(old(currentFrame), step)
        invariant step > 0 ==> shownFrame == currentFrame && Contents(currentFrame) == Rendered(Window(strip, step), b)
      {
        FlippedStep(old(currentFrame), step);
        ScrollStep(buf, StripColumn(p, step), b);
        WindowStep(strip, step);
        ShownSnoc(windows, step, b);
      }
      assert windows[..|p| * 6] == windows;
    }

    /** One step of the scrolling path: shift the column c into the buffer and draw it. */
    method ScrollStep(buf: array<bv8>, c: bv8, b: int)
      requires Valid() && buf.Length == WIDTH
      modifies this, frame0, frame1, buf
      ensures buf[..] == old(buf[..])[1..] + [c]
      ensures Valid()
      ensures currentFrame == 1 - old(currentFrame) && shownFrame == currentFrame
      ensures history == old(history) + [Rendered(buf[..], b)]
      ensures Contents(currentFrame) == Rendered(buf[..], b)
      ensures Contents(old(currentFrame)) == old(Contents(currentFrame))
    {
      ShiftIn(buf, c);
      var drawn := Draw(buf[..], b);
    }

    /**
     * Display.show: clear the frame being written, then scroll text, draw a
     * column buffer, or write a list of pixel triples one by one at their
     * scaled intensities.
     */
    method Show(v: Value, brightness: int := DEFAULT_BRIGHTNESS) returns (ok: bool)
      requires Valid()
      requires v.Text? ==> PrintableText(v.s)
      requires v.Pixels? ==> OnGrid(v.triples)
      modifies this, frame0, frame1
      ensures Valid()
      ensures ok <==> !(v.Bytes? && |v.data| < WIDTH)
      ensures v.Text? ==> history == old(history) + Shown(ScrollFrames(v.s), Clamp(brightness))
      ensures v.Text? ==> shownFrame == currentFrame && Contents(currentFrame) == Rendered(LastFrame(v.s), Clamp(brightness))
      ensures v.Bytes? ==> currentFrame == 1 - old(currentFrame) && Contents(currentFrame) == Rendered(v.data, brightness)
      ensures v.Bytes? ==> Contents(old(currentFrame)) == Blank()
      ensures v.Bytes? && ok ==> shownFrame == currentFrame && history == old(history) + [Rendered(v.data, brightness)]
      ensures v.Bytes? && !ok ==> shownFrame == old(shownFrame) && history == old(history)
      ensures v.Pixels? ==> currentFrame == old(currentFrame) && shownFrame == old(shownFrame) && history == old(history)
      ensures v.Pixels? ==> Contents(currentFrame) == Plot(Blank(), v.triples)
      ensures v.Pixels? ==> Contents(1 - currentFrame) == old(Contents(1 - currentFrame))
      ensures v.Pixels? && old(shownFrame) == old(currentFrame) ==> Contents(shownFrame) == Plot(Blank(), v.triples)
      ensures v.Text? && |v.s| <= 3 ==> Contents(1 - currentFrame) == Blank()
    {
      Clear();
      match v
      case Text(s) =>
        Scroll(s, brightness);
        ok := true;
      case Bytes(data) =>
        ok := Draw(data, brightness);
      case Pixels(ts) =>
        PlotPixels(ts);
        ok := true;
    }

    /** The last branch of show: each triple written in turn at its scaled intensity. */
    method PlotPixels(ts: seq<Triple>)
      requires ChipValid() && OnGrid(ts)
      modifies Target()
      ensures Contents(writeFrame) == Plot(old(Contents(writeFrame)), ts)
      ensures Contents(1 - writeFrame) == old(Contents(1 - writeFrame))
    {
      var k := 0;
      while k < |ts|
        invariant 0 <= k <= |ts|
        invariant Contents(writeFrame) == Plot(old(Contents(writeFrame)), ts[..k])
        invariant Contents(1 - writeFrame) == old(Contents(1 - writeFrame))
      {
        var t := ts[k];
        Pixel(t.x, t.y, Scale(t.intensity));
        assert ts[..k + 1][..k] == ts[..k];
        k := k + 1;
      }
      assert ts[..|ts|] == ts;
    }
  }
}
