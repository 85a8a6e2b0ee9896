/**
 * The column buffers Display.scroll draws. A text is padded, turned into a
 * strip of glyph columns (six per character), and either drawn once (three
 * characters fit the 17 columns) or slid through the 17-column buffer one
 * column per draw.
 */
module Scrolling {
  import opened Glyphs
  import opened Addressing

  /** The brightness scroll uses: its argument clamped into 0..255. */
  function Clamp(b: int): (r: int)
    ensures 0 <= r <= 255
    ensures 0 <= b <= 255 ==> r == b
    ensures b < 0 ==> r == 0
    ensures b > 255 ==> r == 255
  {
    if b < 0 then 0 else if b > 255 then 255 else b
  }

  /**
   * The padded text: one or two characters are filled up to three with
   * spaces, three are kept, and any other length (zero included) gets three
   * trailing spaces.
   */
  function Padded(text: string): (p: string)
    ensures 1 <= |text| <= 3 ==> |p| == 3
    ensures |text| == 0 || |text| > 3 ==> |p| == |text| + 3
    ensures p[..|text|] == text
    ensures forall i :: |text| <= i < |p| ==> p[i] == ' '
    ensures PrintableText(text) ==> PrintableText(p)
  {
    if |text| == 1 then text + "  "
    else if |text| == 2 then text + " "
    else if |text| != 3 then text + "   "
    else text
  }

  /** Six-column blocks laid side by side. */
  function Concat(blocks: seq<seq<bv8>>): (s: seq<bv8>)
    requires forall i :: 0 <= i < |blocks| ==> |blocks[i]| == 6
    ensures |s| == 6 * |blocks|
  {
    if blocks == [] then [] else blocks[0] + Concat(blocks[1..])
  }

  /** Column k of the concatenation is column k % 6 of block k / 6. */
  lemma {:induction false} ConcatAt(blocks: seq<seq<bv8>>, k: int)
    requires forall i :: 0 <= i < |blocks| ==> |blocks[i]| == 6
    requires 0 <= k < 6 * |blocks|
    ensures Concat(blocks)[k] == blocks[k / 6][k % 6]
  {
    var rest := blocks[1..];
    assert Concat(blocks) == blocks[0] + Concat(rest);
    if k >= 6 {
      ConcatAt(rest, k - 6);
      assert (k - 6) / 6 == k / 6 - 1 && (k - 6) % 6 == k % 6;
      assert Concat(blocks)[k] == Concat(rest)[k - 6];
    }
  }

  /** The glyph of every character of a text, in order. */
  function GlyphsOf(text: string): (gs: seq<seq<bv8>>)
    requires PrintableText(text)
    ensures |gs| == |text| && forall i :: 0 <= i < |text| ==> gs[i] == Glyph(text[i])
  {
    seq(|text|, i requires 0 <= i < |text| => Glyph(text[i]))
  }

  /** The strip of a text: its glyphs, each with its spacing column, side by side. */
  function Strip(text: string): (s: seq<bv8>)
    requires PrintableText(text)
    ensures |s| == 6 * |text|
  {
    Concat(GlyphsOf(text))
  }

  /** Column k of the strip is column k % 6 of the glyph of character k / 6. */
  lemma StripAt(text: string, k: int)
    requires PrintableText(text) && 0 <= k < 6 * |text|
    ensures Strip(text)[k] == Glyph(text[k / 6])[k % 6]
  {
    ConcatAt(GlyphsOf(text), k);
  }

  /** The byte scroll reads for column k of the text: its glyph's column, which is the strip's column k. */
  function StripColumn(text: string, k: int): (c: bv8)
    requires PrintableText(text) && 0 <= k < 6 * |text|
    ensures c == Strip(text)[k]
  {
    StripAt(text, k);
    Glyph(text[k / 6])[k % 6]
  }

  /** The buffer the static path builds for a three-character text. */
  function StaticColumns(p: string): (cols: seq<bv8>)
    requires |p| == 3 && PrintableText(p)
    ensures |cols| == WIDTH
  {
    seq(WIDTH, i requires 0 <= i < WIDTH => Glyph(p[i / 6])[i % 6])
  }

  /** The static buffer is the first 17 columns of the text's strip (the last glyph loses its spacing column). */
  lemma StaticIsStripPrefix(p: string)
    requires |p| == 3 && PrintableText(p)
    ensures StaticColumns(p) == Strip(p)[..WIDTH]
  {
    forall i | 0 <= i < WIDTH ensures StaticColumns(p)[i] == Strip(p)[i] {
      StripAt(p, i);
    }
  }

  /**
   * The scrolling buffer after n columns of the strip have been pushed in at
   * the right: buffer column j shows strip column n - 17 + j, or is blank
   * while that column has not arrived yet.
   */
  function Window(strip: seq<bv8>, n: int): (w: seq<bv8>)
    requires 0 <= n <= |strip|
    ensures |w| == WIDTH
  {
    seq(WIDTH, j requires 0 <= j < WIDTH => if n - WIDTH + j >= 0 then strip[n - WIDTH + j] else 0)
  }

  /** Before any column arrives the buffer is blank, as bytearray(17) is. */
  lemma WindowStart(strip: seq<bv8>)
    ensures Window(strip, 0) == seq(WIDTH, _ => 0)
  {
  }

  /** One scroll step: shift every column left by one and put the next strip column last. */
  lemma WindowStep(strip: seq<bv8>, n: int)
    requires 0 <= n < |strip|
    ensures Window(strip, n + 1) == Window(strip, n)[1..] + [strip[n]]
  {
  }

  /** The buffers of the scrolling path for a padded text p: one per strip column pushed in. */
  function ScrollWindows(p: string): (ws: seq<seq<bv8>>)
    requires PrintableText(p)
    ensures |ws| == |p| * 6
    ensures forall t :: 0 <= t < |p| * 6 ==> ws[t] == Window(Strip(p), t + 1)
  {
    seq(|p| * 6, t requires 0 <= t < |p| * 6 => Window(Strip(p), t + 1))
  }

  /** The buffers scroll draws, in order, one per draw. */
  function ScrollFrames(text: string): (frames: seq<seq<bv8>>)
    requires PrintableText(text)
    ensures |frames| >= 1
    ensures forall t :: 0 <= t < |frames| ==> |frames[t]| == WIDTH
  {
    var p := Padded(text);
    if |p| == 3 then [StaticColumns(p)] else ScrollWindows(p)
  }

  /** The buffer of the last draw of a scroll. */
  function LastFrame(text: string): (f: seq<bv8>)
    requires PrintableText(text)
    ensures |f| == WIDTH
  {
    ScrollFrames(text)[|ScrollFrames(text)| - 1]
  }

  /** Texts of up to three characters take one draw; a longer text of n characters takes (n + 3) * 6. */
  lemma ScrollFrameCount(text: string)
    requires PrintableText(text)
    ensures |ScrollFrames(text)| == if |text| <= 3 then 1 else (|text| + 3) * 6
  {
  }

  /** A text of one or two characters is drawn exactly as its space-padded three-character form. */
  lemma ShortTextIsPadded(text: string)
    requires PrintableText(text) && 1 <= |text| <= 3
    ensures PrintableText(Padded(text))
    ensures ScrollFrames(text) == ScrollFrames(Padded(text))
  {
    assert Padded(Padded(text)) == Padded(text);
  }

  /** scroll("A") and scroll("A  ") draw the same buffer. */
  lemma SinglePaddedSample()
    ensures ScrollFrames("A") == ScrollFrames("A  ")
  {
    ShortTextIsPadded("A");
    assert Padded("A") == "A  ";
  }

  /** The empty text is padded to three spaces: one draw of a blank buffer. */
  lemma EmptyTextDrawsBlankOnce()
    ensures ScrollFrames("") == [seq(WIDTH, _ => 0)]
  {
    SpaceIsBlank();
    assert Padded("") == "   ";
    assert StaticColumns("   ") == seq(WIDTH, _ => 0);
  }

  /**
   * In the scrolling case, draw t shows buffer column j as column
   * (t - 16 + j) % 6 of the glyph of character (t - 16 + j) / 6, blank before
   * the text's first column arrives.
   */
  lemma ScrollFrameAt(text: string, t: int, j: int)
    requires PrintableText(text) && |Padded(text)| != 3
    requires 0 <= t < |ScrollFrames(text)| && 0 <= j < WIDTH
    ensures t - 16 + j < 0 ==> ScrollFrames(text)[t][j] == 0
    ensures t - 16 + j >= 0 ==>
      ScrollFrames(text)[t][j] == Glyph(Padded(text)[(t - 16 + j) / 6])[(t - 16 + j) % 6]
  {
    var p := Padded(text);
    var strip := Strip(p);
    assert ScrollFrames(text)[t] == Window(strip, t + 1);
    assert ScrollFrames(text)[t][j] == if t - 16 + j >= 0 then strip[t - 16 + j] else 0;
    if t - 16 + j >= 0 {
      StripAt(p, t - 16 + j);
    }
  }

  /** Scrolling ends on a blank buffer: the last 17 columns pushed in come from the three padding spaces. */
  lemma ScrollEndsBlank(text: string)
    requires PrintableText(text) && |Padded(text)| != 3
    ensures forall j :: 0 <= j < WIDTH ==> LastFrame(text)[j] == 0
  {
    var p := Padded(text);
    var last := |ScrollFrames(text)| - 1;
    assert last == |p| * 6 - 1;
    SpaceIsBlank();
    forall j | 0 <= j < WIDTH ensures LastFrame(text)[j] == 0 {
      ScrollFrameAt(text, last, j);
      var k := last - 16 + j;
      assert k / 6 >= |text|;
    }
  }

  /** Every buffer scroll draws uses only rows 0..6. */
  lemma ScrollFramesAre7Bit(text: string)
    requires PrintableText(text)
    ensures forall t, j :: 0 <= t < |ScrollFrames(text)| && 0 <= j < WIDTH ==> ScrollFrames(text)[t][j] < 0x80
  {
    var p := Padded(text);
    forall t, j | 0 <= t < |ScrollFrames(text)| && 0 <= j < WIDTH ensures ScrollFrames(text)[t][j] < 0x80 {
      if |p| == 3 {
        assert ScrollFrames(text)[t][j] == Glyph(p[j / 6])[j % 6];
      } else {
        ScrollFrameAt(text, t, j);
      }
    }
  }
}
